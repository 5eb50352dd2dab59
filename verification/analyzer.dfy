/** The per-function style rules: function length, parameter count and
    nesting depth, each with the same three-tier severity, and the rule
    loop over one parsed file. */
module StyleRules {
  import opened Wrappers
  import opened Text
  import opened Seqs
  import opened PyAst
  import opened Extractor

  datatype Severity = Info | Warn | Critical
  {
    /** The enum's string value. */
    function Value(): string {
      match this
      case Info => "INFO"
      case Warn => "WARN"
      case Critical => "CRITICAL"
    }

    /** Position in the order INFO < WARN < CRITICAL. */
    function Rank(): nat {
      match this
      case Info => 0
      case Warn => 1
      case Critical => 2
    }
  }

  /** `Severity(value)`: the member with that value, if any. */
  function ParseSeverity(s: string): Option<Severity> {
    if s == "INFO" then Some(Info)
    else if s == "WARN" then Some(Warn)
    else if s == "CRITICAL" then Some(Critical)
    else None
  }

  /** Value and lookup are inverse: each member's value names it, and only
      the three values name a member. */
  lemma SeverityRoundTrip(sev: Severity, s: string)
    ensures ParseSeverity(sev.Value()) == Some(sev)
    ensures ParseSeverity(s).Some? ==> ParseSeverity(s).value.Value() == s
    ensures ParseSeverity(s).None? <==> s !in {"INFO", "WARN", "CRITICAL"}
  {
  }

  /** The tier shared by the three rules: CRITICAL above twice the limit,
      WARN above one and a half times it (`2 * metric > 3 * max` is
      `metric > max * 1.5` on integers), INFO otherwise. */
  function Tier(metric: int, max: int): Severity {
    if metric > max * 2 then Critical
    else if 2 * metric > 3 * max then Warn
    else Info
  }

  /** A larger metric never gets a lower severity. */
  lemma TierMonotone(m1: int, m2: int, max: int)
    requires m1 <= m2
    ensures Tier(m1, max).Rank() <= Tier(m2, max).Rank()
  {
  }

  /** With a limit of 30 lines: 35 is INFO, 50 is WARN, 70 is CRITICAL. */
  lemma TierExamples()
    ensures Tier(35, 30) == Info && Tier(50, 30) == Warn && Tier(70, 30) == Critical
  {
  }

  /** The tier, stated through the rational thresholds of the source. */
  lemma TierThresholds(metric: int, max: int)
    ensures Tier(metric, max) == Critical <==> metric > 2 * max
    ensures Tier(metric, max) == Warn <==> metric <= 2 * max && (metric as real) > 1.5 * (max as real)
    ensures Tier(metric, max) == Info <==> metric <= 2 * max && (metric as real) <= 1.5 * (max as real)
  {
  }

  // ---------------------------------------------------------------------
  // Issues
  // ---------------------------------------------------------------------

  /** `details`: a small map from metric names to numbers, or `None`. */
  datatype Issue = Issue(severity: Severity, file: string, functionName: string, startLine: int,
                         endLine: int, ruleName: string, message: string,
                         details: Option<map<string, int>>)
  {
    /** `to_dict`: severity as its string, missing details as `{}`. */
    function ToDict(): (r: IssueDict)
      ensures ParseSeverity(r.severity) == Some(severity)
      ensures details.None? ==> r.details == map[]
      ensures details.Some? ==> r.details == details.value
      ensures r.file == file && r.functionName == functionName && r.startLine == startLine
      ensures r.endLine == endLine && r.ruleName == ruleName && r.message == message
    {
      IssueDict(severity.Value(), file, functionName, startLine, endLine, ruleName, message,
                details.GetOr(map[]))
    }
  }

  /** The dictionary `to_dict` builds, one field per key. */
  datatype IssueDict = IssueDict(severity: string, file: string, functionName: string, startLine: int,
                                 endLine: int, ruleName: string, message: string,
                                 details: map<string, int>)

  /** Reading a dictionary back gives the issue, up to a missing versus an
      empty `details`. */
  function FromDict(d: IssueDict): Option<Issue> {
    match ParseSeverity(d.severity)
    case None => None
    case Some(s) =>
      Some(Issue(s, d.file, d.functionName, d.startLine, d.endLine, d.ruleName, d.message,
                 if d.details == map[] then None else Some(d.details)))
  }

  lemma ToDictRoundTrip(i: Issue)
    requires i.details.None? || i.details.value != map[]
    ensures FromDict(i.ToDict()) == Some(i)
  {
  }

  // ---------------------------------------------------------------------
  // Rule 1: function length
  // ---------------------------------------------------------------------

  const LengthRule := "function-too-long"
  const ParamsRule := "too-many-parameters"
  const NestingRule := "deep-nesting"

  function LineSpan(d: Tree): int
    requires d.FunctionDef?
  {
    d.endLineno - d.lineno + 1
  }

  function MakeIssue(d: Tree, path: string, metric: int, max: int, rule: string, message: string,
                     details: map<string, int>): (r: Issue)
    requires d.FunctionDef?
  {
    Issue(Tier(metric, max), path, d.name, d.lineno, d.endLineno, rule, message, Some(details))
  }

  function LengthMessage(name: string, length: int, max: int): string {
    "Function '" + name + "' is " + IntToString(length) + " lines long (max: " + IntToString(max)
      + "). Consider splitting it into smaller functions with single responsibilities."
  }

  function ParamsMessage(name: string, n: nat, max: int): string {
    "Function '" + name + "' has " + NatToString(n) + " parameters (recommended: \U{2264} "
      + IntToString(max) + "). Consider grouping related parameters into a dataclass or config object."
  }

  function NestingMessage(name: string, depth: nat, max: int): string {
    "Function '" + name + "' has " + NatToString(depth) + " levels of nesting (max: " + IntToString(max)
      + "). High nesting makes code harder to understand. Consider extracting nested logic into helper functions."
  }

  /** `check_function_length`. */
  function CheckFunctionLength(d: Tree, path: string, maxLength: int): (r: Option<Issue>)
    requires d.FunctionDef?
    ensures r.None? <==> d.endLineno - d.lineno + 1 <= maxLength
    ensures r.Some? ==> && r.value.ruleName == LengthRule
                        && r.value.details == Some(map["length" := d.endLineno - d.lineno + 1,
                                                       "max_length" := maxLength])
                        && r.value.severity == Tier(d.endLineno - d.lineno + 1, maxLength)
                        && r.value.file == path && r.value.functionName == d.name
                        && r.value.startLine == d.lineno && r.value.endLine == d.endLineno
  {
    var length := LineSpan(d);
    if length > maxLength then
      Some(MakeIssue(d, path, length, maxLength, LengthRule,
        LengthMessage(d.name, length, maxLength),
        map["length" := length, "max_length" := maxLength]))
    else None
  }

  // ---------------------------------------------------------------------
  // Rule 2: parameter count
  // ---------------------------------------------------------------------

  /** Positional and keyword-only parameters, plus one each for `*args`
      and `**kwargs`; positional-only parameters are not counted. */
  function ParamCount(a: Arguments): nat {
    |a.args| + |a.kwonly| + (if |a.vararg| > 0 then 1 else 0) + (if |a.kwarg| > 0 then 1 else 0)
  }

  /** `check_too_many_parameters`. */
  function CheckTooManyParameters(d: Tree, path: string, maxParams: int): (r: Option<Issue>)
    requires d.FunctionDef?
    ensures r.None? <==> ParamCount(d.args) <= maxParams
    ensures r.Some? ==> && r.value.ruleName == ParamsRule
                        && r.value.details == Some(map["param_count" := ParamCount(d.args),
                                                       "max_params" := maxParams])
                        && r.value.severity == Tier(ParamCount(d.args), maxParams)
                        && r.value.file == path && r.value.functionName == d.name
  {
    var n := ParamCount(d.args);
    if n > maxParams then
      Some(MakeIssue(d, path, n, maxParams, ParamsRule,
        ParamsMessage(d.name, n, maxParams),
        map["param_count" := n, "max_params" := maxParams]))
    else None
  }

  /** `*args` and `**kwargs` count one each, whatever else is declared. */
  lemma ParamCountParts(a: Arguments)
    ensures ParamCount(a) >= |a.args| + |a.kwonly|
    ensures ParamCount(a) <= |a.args| + |a.kwonly| + 2
    ensures ParamCount(a.(posonly := [])) == ParamCount(a)
    ensures |a.vararg| > 0 && |a.kwarg| > 0 ==> ParamCount(a) == |a.args| + |a.kwonly| + 2
  {
  }

  // ---------------------------------------------------------------------
  // Rule 3: nesting depth
  // ---------------------------------------------------------------------

  /** The class name of a generic node (its tag up to the first `:`). */
  function ClassName(tag: string): (r: string)
    ensures StartsWith(tag, r) && ':' !in r
    ensures |r| < |tag| ==> tag[|r|] == ':'
  {
    if |tag| == 0 || tag[0] == ':' then "" else [tag[0]] + ClassName(tag[1..])
  }

  /** The statements the visitor counts: `If`, `For`, `While` and `With`;
      their async forms, `Try` and every other node add no depth. */
  predicate IsNesting(t: Tree) {
    t.Node? && ClassName(t.tag) in {"If", "For", "While", "With"}
  }

  function Max(a: nat, b: nat): nat { if a >= b then a else b }

  /** Reference definition: the longest chain of nested counted
      statements in `t`, `t` included. */
  function Depth(t: Tree): nat
    decreases Size(t), 0
  {
    ChildNodesSmaller(t);
    (if IsNesting(t) then 1 else 0) + DepthSeq(ChildNodes(t))
  }

  function DepthSeq(ts: seq<Tree>): nat
    decreases SeqSize(ts), 1
  {
    if |ts| == 0 then 0
    else
      SizePositive(ts[0]);
      Max(Depth(ts[0]), DepthSeq(ts[1..]))
  }

  lemma SizePositive(t: Tree)
    ensures Size(t) >= 1
  {
  }

  /** The `NestingVisitor`'s two counters. */
  datatype NestingState = NestingState(maxDepth: nat, currentDepth: nat)

  /** `visit` of one node: a counted statement raises the current depth,
      records the maximum, visits its children and lowers the depth again;
      any other node just visits its children. */
  function Visit(t: Tree, st: NestingState): (r: NestingState)
    requires st.currentDepth <= st.maxDepth
    ensures r.currentDepth == st.currentDepth
    ensures r.maxDepth == Max(st.maxDepth, st.currentDepth + Depth(t))
    decreases Size(t), 0
  {
    ChildNodesSmaller(t);
    if IsNesting(t) then
      var inner := NestingState(Max(st.maxDepth, st.currentDepth + 1), st.currentDepth + 1);
      var after := VisitAll(ChildNodes(t), inner);
      NestingState(after.maxDepth, after.currentDepth - 1)
    else
      VisitAll(ChildNodes(t), st)
  }

  /** `generic_visit`: the children in order. */
  function VisitAll(ts: seq<Tree>, st: NestingState): (r: NestingState)
    requires st.currentDepth <= st.maxDepth
    ensures r.currentDepth == st.currentDepth
    ensures r.maxDepth == Max(st.maxDepth, st.currentDepth + DepthSeq(ts))
    decreases SeqSize(ts), 1
  {
    if |ts| == 0 then st
    else
      SizePositive(ts[0]);
      VisitAll(ts[1..], Visit(ts[0], st))
  }

  /** The depth the visitor reports for a definition: its deepest chain
      of counted statements (the definition itself is not one). */
  function NestingDepth(d: Tree): (r: nat)
    requires d.FunctionDef?
    ensures r == DepthSeq(ChildNodes(d))
  {
    Visit(d, NestingState(0, 0)).maxDepth
  }

  /** `check_deep_nesting`. */
  function CheckDeepNesting(d: Tree, path: string, maxDepth: int): (r: Option<Issue>)
    requires d.FunctionDef?
    ensures r.None? <==> DepthSeq(ChildNodes(d)) <= maxDepth
    ensures r.Some? ==> && r.value.ruleName == NestingRule
                        && r.value.details == Some(map["nesting_depth" := DepthSeq(ChildNodes(d)),
                                                       "max_depth" := maxDepth])
                        && r.value.severity == Tier(DepthSeq(ChildNodes(d)), maxDepth)
                        && r.value.file == path && r.value.functionName == d.name
  {
    var depth := NestingDepth(d);
    if depth > maxDepth then
      Some(MakeIssue(d, path, depth, maxDepth, NestingRule,
        NestingMessage(d.name, depth, maxDepth),
        map["nesting_depth" := depth, "max_depth" := maxDepth]))
    else None
  }

  /** The depth of a sequence is the larger depth of its two parts. */
  lemma {:induction false} DepthSeqConcat(a: seq<Tree>, b: seq<Tree>)
    ensures DepthSeq(a + b) == Max(DepthSeq(a), DepthSeq(b))
  {
    if |a| == 0 {
      assert a + b == b;
    } else {
      assert (a + b)[1..] == a[1..] + b;
      DepthSeqConcat(a[1..], b);
    }
  }

  /** A statement with a test and two statement lists (`if`, `while`,
      `for` without its target): one level when its class is counted, plus
      the deepest of its parts. */
  lemma DepthOfBlock(tag: string, test: Tree, body: seq<Tree>, orelse: seq<Tree>)
    requires !test.List?
    ensures Depth(Node(tag, [test, List(body), List(orelse)]))
         == (if ClassName(tag) in {"If", "For", "While", "With"} then 1 else 0)
            + Max(Depth(test), Max(DepthSeq(body), DepthSeq(orelse)))
  {
    var fs := [test, List(body), List(orelse)];
    assert fs[1..] == [List(body), List(orelse)];
    assert fs[1..][1..] == [List(orelse)];
    assert fs[1..][1..][1..] == [];
    assert FlattenFields(fs[1..][1..]) == orelse + [];
    assert FlattenFields(fs[1..]) == body + (orelse + []);
    assert FlattenFields(fs) == [test] + (body + (orelse + []));
    DepthSeqConcat(orelse, []);
    DepthSeqConcat(body, orelse + []);
    DepthSeqConcat([test], body + (orelse + []));
  }

  /** `if` inside `while` inside `if`, with plain statements inside:
      three levels; a `try` block wrapping nested code adds none. */
  lemma NestingExamples(test: Tree, stmt: Tree)
    requires !test.List? && Depth(test) == 0 && Depth(stmt) == 0
    ensures var inner := Node("If", [test, List([stmt]), List([])]);
            var loop := Node("While", [test, List([inner, stmt]), List([])]);
            var outer := Node("If", [test, List([loop]), List([stmt])]);
            && Depth(outer) == 3
            && Depth(Node("Try", [test, List([outer]), List([])])) == 3
  {
    var inner := Node("If", [test, List([stmt]), List([])]);
    var loop := Node("While", [test, List([inner, stmt]), List([])]);
    var outer := Node("If", [test, List([loop]), List([stmt])]);
    NestOne("If", test, [stmt], [], 0);
    NestPair(inner, stmt);
    NestOne("While", test, [inner, stmt], [], 1);
    NestOne("If", test, [loop], [stmt], 2);
    NestTry(test, outer);
  }

  /** A counted block whose parts reach depth `d` has depth `d + 1`. */
  lemma NestOne(tag: string, test: Tree, body: seq<Tree>, orelse: seq<Tree>, d: nat)
    requires tag in {"If", "While"} && !test.List? && Depth(test) == 0
    requires Max(DepthSeq(body), DepthSeq(orelse)) == d
    ensures Depth(Node(tag, [test, List(body), List(orelse)])) == d + 1
  {
    assert ClassName(tag) == tag;
    DepthOfBlock(tag, test, body, orelse);
  }

  lemma NestPair(a: Tree, b: Tree)
    requires Depth(b) == 0
    ensures DepthSeq([a, b]) == Depth(a) && DepthSeq([b]) == 0 && DepthSeq([a]) == Depth(a)
    ensures DepthSeq([]) == 0
  {
    DepthSeqConcat([a], [b]);
    assert [a] + [b] == [a, b];
  }

  lemma NestTry(test: Tree, t: Tree)
    requires !test.List? && Depth(test) == 0
    ensures Depth(Node("Try", [test, List([t]), List([])])) == Depth(t)
  {
    assert ClassName("Try") == "Try";
    DepthOfBlock("Try", test, [t], []);
    NestPair(t, test);
  }

  // ---------------------------------------------------------------------
  // analyze_file
  // ---------------------------------------------------------------------

  /** A plain `def`: the rules skip `async def`. */
  predicate IsSyncDef(t: Tree) { t.FunctionDef? && !t.isAsync }

  function OptionList(o: Option<Issue>): (r: seq<Issue>)
    ensures |r| <= 1
    ensures o.None? ==> r == []
    ensures o.Some? ==> r == [o.value]
  {
    match o
    case None => []
    case Some(i) => [i]
  }

  lemma OptionListAbout(o: Option<Issue>, path: string, name: string)
    requires o.Some? ==> o.value.file == path && o.value.functionName == name
    ensures forall i :: i in OptionList(o) ==> i.file == path && i.functionName == name
  {
  }

  /** The issues of one definition, in rule order. */
  function RuleIssues(d: Tree, path: string, maxLength: int, maxParams: int, maxDepth: int): (r: seq<Issue>)
    requires d.FunctionDef?
    ensures |r| <= 3
    ensures forall i :: i in r ==> i.file == path && i.functionName == d.name
  {
    var a := OptionList(CheckFunctionLength(d, path, maxLength));
    var b := OptionList(CheckTooManyParameters(d, path, maxParams));
    var c := OptionList(CheckDeepNesting(d, path, maxDepth));
    OptionListAbout(CheckFunctionLength(d, path, maxLength), path, d.name);
    OptionListAbout(CheckTooManyParameters(d, path, maxParams), path, d.name);
    OptionListAbout(CheckDeepNesting(d, path, maxDepth), path, d.name);
    a + b + c
  }

  /** The rule loop over the nodes of a walk. */
  function IssuesOf(nodes: seq<Tree>, path: string, maxLength: int, maxParams: int, maxDepth: int): (r: seq<Issue>)
    ensures |r| <= 3 * Count(nodes, IsSyncDef)
    ensures forall i :: i in r ==> i.file == path
    ensures forall i :: i in r ==> exists n :: n in nodes && IsSyncDef(n) && n.name == i.functionName
  {
    if |nodes| == 0 then []
    else
      var rest := IssuesOf(nodes[1..], path, maxLength, maxParams, maxDepth);
      assert forall n :: n in nodes[1..] ==> n in nodes;
      assert Count(nodes, IsSyncDef) == (if IsSyncDef(nodes[0]) then 1 else 0) + Count(nodes[1..], IsSyncDef);
      if IsSyncDef(nodes[0]) then
        var own := RuleIssues(nodes[0], path, maxLength, maxParams, maxDepth);
        assert nodes[0] in nodes;
        assert forall i :: i in own + rest ==> i in own || i in rest;
        own + rest
      else
        rest
  }

  /** `analyze_file`, given the file's parse result: a file that cannot be
      read or parsed has no issues. */
  function AnalyzeFile(path: string, parsed: Option<Tree>, maxLength: int, maxParams: int, maxDepth: int): (r: seq<Issue>)
    ensures parsed.None? ==> r == []
    ensures forall i :: i in r ==> i.file == path
  {
    match parsed
    case None => []
    case Some(t) => IssuesOf(Walk([t]), path, maxLength, maxParams, maxDepth)
  }

  /** Issues name plain definitions of the file only, and each definition
      gets at most one issue per rule. */
  lemma AnalyzeFileBound(path: string, t: Tree, maxLength: int, maxParams: int, maxDepth: int)
    ensures var r := AnalyzeFile(path, Some(t), maxLength, maxParams, maxDepth);
            && |r| <= 3 * Count(Walk([t]), IsSyncDef)
            && forall i :: i in r ==> exists n :: n in Walk([t]) && IsSyncDef(n) && n.name == i.functionName
  {
  }

  /** The rule loop reports every issue of every plain definition it
      meets. */
  lemma {:induction false} IssuesOfReports(nodes: seq<Tree>, n: Tree, path: string,
                                           maxLength: int, maxParams: int, maxDepth: int)
    requires n in nodes && IsSyncDef(n)
    ensures forall i :: i in RuleIssues(n, path, maxLength, maxParams, maxDepth) ==>
              i in IssuesOf(nodes, path, maxLength, maxParams, maxDepth)
  {
    var rest := IssuesOf(nodes[1..], path, maxLength, maxParams, maxDepth);
    if nodes[0] != n {
      assert n in nodes[1..];
      IssuesOfReports(nodes[1..], n, path, maxLength, maxParams, maxDepth);
      if IsSyncDef(nodes[0]) {
        var own := RuleIssues(nodes[0], path, maxLength, maxParams, maxDepth);
        assert IssuesOf(nodes, path, maxLength, maxParams, maxDepth) == own + rest;
      }
    }
  }

  /** Every rule a plain definition of the file breaks is reported: each
      issue the three checks find for it is among the file's issues. */
  lemma AnalyzeFileReports(path: string, t: Tree, n: Tree, maxLength: int, maxParams: int, maxDepth: int)
    requires n in Walk([t]) && IsSyncDef(n)
    ensures var r := AnalyzeFile(path, Some(t), maxLength, maxParams, maxDepth);
            && (CheckFunctionLength(n, path, maxLength).Some? ==> CheckFunctionLength(n, path, maxLength).value in r)
            && (CheckTooManyParameters(n, path, maxParams).Some? ==> CheckTooManyParameters(n, path, maxParams).value in r)
            && (CheckDeepNesting(n, path, maxDepth).Some? ==> CheckDeepNesting(n, path, maxDepth).value in r)
  {
    IssuesOfReports(Walk([t]), n, path, maxLength, maxParams, maxDepth);
    var own := RuleIssues(n, path, maxLength, maxParams, maxDepth);
    var a := OptionList(CheckFunctionLength(n, path, maxLength));
    var b := OptionList(CheckTooManyParameters(n, path, maxParams));
    var c := OptionList(CheckDeepNesting(n, path, maxDepth));
    assert own == a + b + c;
    assert forall i :: i in a || i in b || i in c ==> i in own;
  }

  /** A file with only `async def`s (or no definitions) has no issues. */
  lemma NoPlainDefsNoIssues(path: string, t: Tree, maxLength: int, maxParams: int, maxDepth: int)
    requires forall n :: n in Walk([t]) ==> !IsSyncDef(n)
    ensures AnalyzeFile(path, Some(t), maxLength, maxParams, maxDepth) == []
  {
  }
}
