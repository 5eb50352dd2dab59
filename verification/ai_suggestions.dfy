/** The AI suggestion pass: which issues are sent to the model (INFO ones
    dropped on request, the rest ordered CRITICAL, WARN, INFO and cut to a
    maximum), the source text each one is sent with, and the counters of
    the resulting summary.

    The files are a parameter (a path's lines, or the message of a failed
    read), and so is what each call to the model did. Token costs are
    floating point and left out. */
module AiSuggestions {
  import opened Wrappers
  import opened Text
  import opened Seqs
  import opened StyleRules
  import opened LlmProviders

  /** What reading a file gave: its lines as `readlines()` returns them, or
      the message of the exception. */
  datatype FileRead = Read(lines: seq<string>) | ReadFailed(message: string)

  /** `AIAnalysisResult` without the cost estimate. */
  datatype AnalysisResult = AnalysisResult(issue: Issue, suggestion: Suggestion, originalCode: string,
                                           tokensUsed: nat)

  predicate HasCode(r: AnalysisResult) {
    r.suggestion.refactoredCode != ""
  }

  predicate LacksCode(r: AnalysisResult) {
    r.suggestion.refactoredCode == ""
  }

  /** `AIAnalysisSummary` without the total cost. */
  datatype AnalysisSummary = AnalysisSummary(results: seq<AnalysisResult>, totalTokens: nat, provider: string,
                                             model: string, errors: seq<string>)
  {
    /** `success_count`: results that carry refactored code. */
    function SuccessCount(): (n: nat)
      ensures n <= |results|
      ensures n == |results| <==> forall i :: 0 <= i < |results| ==> HasCode(results[i])
    {
      Count(results, HasCode)
    }

    /** `error_count`: the results without code. Entries of `errors` are
        not counted. */
    function ErrorCount(): (n: nat)
      ensures n == Count(results, LacksCode)
      ensures n + SuccessCount() == |results|
    {
      var pq := (r: AnalysisResult) => true;
      CountDisjointUnion(results, HasCode, LacksCode, pq);
      assert Count(results, pq) == |results|;
      |results| - SuccessCount()
    }
  }

  // ---------------------------------------------------------------------
  // Function source
  // ---------------------------------------------------------------------

  const ExtractErrorPrefix := "# Error extracting function: "

  /** `extract_function_source`: the lines `start..end` (1-based,
      inclusive) joined, as the Python slice `lines[start - 1:end]` gives
      them; a failed read yields a comment naming the error. */
  function ExtractFunctionSource(file: FileRead, startLine: int, endLine: int): (r: string)
    ensures file.ReadFailed? ==> r == ExtractErrorPrefix + file.message
    ensures file.Read? && 1 <= startLine && startLine - 1 <= endLine <= |file.lines| ==>
              r == Concat(file.lines[startLine - 1..endLine])
    ensures file.Read? && 1 <= startLine && (0 <= endLine < startLine || |file.lines| < startLine) ==> r == ""
  {
    match file
    case ReadFailed(message) => ExtractErrorPrefix + message
    case Read(lines) => Concat(PySlice(lines, startLine - 1, endLine))
  }

  /** The extracted text splits back into exactly the function's lines,
      when the file's lines are as `readlines()` produces them. */
  lemma ExtractedLinesRoundTrip(lines: seq<string>, startLine: int, endLine: int)
    requires forall i :: 0 <= i < |lines| ==> IsLine(lines[i])
    requires forall i :: 0 <= i < |lines| - 1 ==> Terminated(lines[i])
    requires 1 <= startLine && startLine - 1 <= endLine <= |lines|
    ensures SplitLines(ExtractFunctionSource(Read(lines), startLine, endLine)) == lines[startLine - 1..endLine]
  {
    var part := lines[startLine - 1..endLine];
    assert forall i :: 0 <= i < |part| ==> part[i] == lines[startLine - 1 + i];
    SplitLinesOfConcat(part);
  }

  // ---------------------------------------------------------------------
  // Selecting the issues
  // ---------------------------------------------------------------------

  predicate NotInfo(i: Issue) {
    i.severity != Info
  }

  /** `sorted(..., key=severity_order)` puts smaller orders first; the
      order is the reverse of the rank, so it is a stable sort by rank,
      largest first. */
  function RankOf(i: Issue): int {
    i.severity.Rank()
  }

  /** The issues `get_ai_suggestions` processes: without INFO ones when
      `skipInfo`, CRITICAL before WARN before INFO, the first `maxIssues`
      (Python slice semantics, so a negative limit drops from the end). */
  function SelectIssues(issues: seq<Issue>, maxIssues: int, skipInfo: bool): (r: seq<Issue>)
    ensures skipInfo ==> forall k :: 0 <= k < |r| ==> r[k].severity != Info
    ensures forall k :: 0 <= k < |r| ==> r[k] in issues
    ensures SortedDesc(r, RankOf)
    ensures 0 <= maxIssues ==> |r| <= maxIssues
  {
    var kept := if skipInfo then Filter(issues, NotInfo) else issues;
    var sorted := SortDesc(kept, RankOf);
    var r := PyTake(sorted, maxIssues);
    SortDescMembers(kept, RankOf);
    FilterMembers(issues, NotInfo);
    assert forall k :: 0 <= k < |r| ==> r[k] in sorted && r[k] in kept;
    r
  }

  /** Nothing is dropped but by the three rules: with a limit at least the
      number of kept issues, the selection is a permutation of them, and
      issues of equal severity keep their input order. */
  lemma SelectIssuesKeepsAll(issues: seq<Issue>, maxIssues: int, skipInfo: bool)
    requires maxIssues >= |issues|
    ensures var kept := if skipInfo then Filter(issues, NotInfo) else issues;
            var r := SelectIssues(issues, maxIssues, skipInfo);
            multiset(r) == multiset(kept) && forall v :: KeyClass(r, RankOf, v) == KeyClass(kept, RankOf, v)
  {
    var kept := if skipInfo then Filter(issues, NotInfo) else issues;
    var sorted := SortDesc(kept, RankOf);
    assert |kept| <= |issues|;
    assert PyTake(sorted, maxIssues) == sorted;
  }

  /** The selection is a prefix of the sorted issues: no issue left out
      outranks one that was kept. */
  lemma SelectIssuesTakesMostSevere(issues: seq<Issue>, maxIssues: int, skipInfo: bool)
    requires 0 <= maxIssues
    ensures var kept := if skipInfo then Filter(issues, NotInfo) else issues;
            var sorted := SortDesc(kept, RankOf);
            var r := SelectIssues(issues, maxIssues, skipInfo);
            |r| == (if maxIssues < |kept| then maxIssues else |kept|)
            && r == sorted[..|r|]
            && forall x, y :: x in r && y in sorted[|r|..] ==> x.severity.Rank() >= y.severity.Rank()
  {
    var kept := if skipInfo then Filter(issues, NotInfo) else issues;
    var sorted := SortDesc(kept, RankOf);
    var n := if maxIssues < |kept| then maxIssues else |kept|;
    TopKeysDominate(kept, RankOf, n);
  }

  // ---------------------------------------------------------------------
  // The suggestion pass
  // ---------------------------------------------------------------------

  function IssueOf(r: AnalysisResult): Issue { r.issue }

  /** The issues whose request ran. */
  function AnsweredBy(attempt: Issue -> Attempt): Issue -> bool {
    (i: Issue) => attempt(i).Answered?
  }

  /** What happened to one issue's request: the model call ran (with the
      outcome `generate` saw), or something raised inside the `try`. */
  datatype Attempt = Answered(outcome: Outcome) | Crashed(message: string)

  function UnavailableMessage(c: LlmConfig): string {
    "LLM provider '" + c.provider.Value() + "' is not available. "
    + "Please set the appropriate API key environment variable."
  }

  function CrashMessage(i: Issue, message: string): string {
    "Error processing " + i.functionName + ": " + message
  }

  /** The result recorded for an issue whose request ran. */
  function ResultFor(c: LlmConfig, i: Issue, files: string -> FileRead, outcome: Outcome): (r: AnalysisResult)
    requires c.provider.Ollama? ==> !outcome.ImportFailed?
    ensures r.issue == i && r.tokensUsed == 0
    ensures r.originalCode == ExtractFunctionSource(files(i.file), i.startLine, i.endLine)
    ensures r.suggestion.originalCode == r.originalCode
  {
    var code := ExtractFunctionSource(files(i.file), i.startLine, i.endLine);
    AnalysisResult(i, GetRefactoringSuggestion(c, code, outcome), code, 0)
  }

  /** The `for issue in issues_to_process` loop: each issue adds one result
      or one error message, in order. */
  function ProcessIssues(c: LlmConfig, issues: seq<Issue>, files: string -> FileRead, attempt: Issue -> Attempt)
    : (r: (seq<AnalysisResult>, seq<string>))
    requires forall i: Issue :: c.provider.Ollama? && attempt(i).Answered? ==> !attempt(i).outcome.ImportFailed?
    ensures |r.0| + |r.1| == |issues|
    ensures |r.0| == Count(issues, AnsweredBy(attempt))
  {
    if |issues| == 0 then ([], [])
    else
      var i := issues[0];
      var rest := ProcessIssues(c, issues[1..], files, attempt);
      match attempt(i)
      case Answered(outcome) => ([ResultFor(c, i, files, outcome)] + rest.0, rest.1)
      case Crashed(message) => (rest.0, [CrashMessage(i, message)] + rest.1)
  }

  /** Each result is the one `ResultFor` builds for an issue of `issues`
      whose request ran. */
  predicate ResultsFrom(c: LlmConfig, issues: seq<Issue>, files: string -> FileRead, attempt: Issue -> Attempt,
                        results: seq<AnalysisResult>)
    requires forall i: Issue :: c.provider.Ollama? && attempt(i).Answered? ==> !attempt(i).outcome.ImportFailed?
  {
    forall k :: 0 <= k < |results| ==>
      results[k].issue in issues && attempt(results[k].issue).Answered?
      && results[k] == ResultFor(c, results[k].issue, files, attempt(results[k].issue).outcome)
  }

  lemma {:induction false} ProcessIssuesResults(c: LlmConfig, issues: seq<Issue>, files: string -> FileRead,
                                                attempt: Issue -> Attempt)
    requires forall i: Issue :: c.provider.Ollama? && attempt(i).Answered? ==> !attempt(i).outcome.ImportFailed?
    ensures ResultsFrom(c, issues, files, attempt, ProcessIssues(c, issues, files, attempt).0)
  {
    if |issues| > 0 {
      var r := ProcessIssues(c, issues, files, attempt).0;
      var rest := ProcessIssues(c, issues[1..], files, attempt).0;
      ProcessIssuesResults(c, issues[1..], files, attempt);
      ResultsFromTail(c, issues, files, attempt, rest);
      if attempt(issues[0]).Answered? {
        assert r == [ResultFor(c, issues[0], files, attempt(issues[0]).outcome)] + rest;
        ResultsFromCons(c, issues, files, attempt, rest);
      } else {
        assert r == rest;
      }
    }
  }

  lemma ResultsFromTail(c: LlmConfig, issues: seq<Issue>, files: string -> FileRead, attempt: Issue -> Attempt,
                        results: seq<AnalysisResult>)
    requires forall i: Issue :: c.provider.Ollama? && attempt(i).Answered? ==> !attempt(i).outcome.ImportFailed?
    requires |issues| > 0 && ResultsFrom(c, issues[1..], files, attempt, results)
    ensures ResultsFrom(c, issues, files, attempt, results)
  {
    forall k | 0 <= k < |results| ensures results[k].issue in issues {
      assert results[k].issue in issues[1..];
    }
  }

  lemma ResultsFromCons(c: LlmConfig, issues: seq<Issue>, files: string -> FileRead, attempt: Issue -> Attempt,
                        results: seq<AnalysisResult>)
    requires forall i: Issue :: c.provider.Ollama? && attempt(i).Answered? ==> !attempt(i).outcome.ImportFailed?
    requires |issues| > 0 && attempt(issues[0]).Answered? && ResultsFrom(c, issues, files, attempt, results)
    ensures ResultsFrom(c, issues, files, attempt,
                        [ResultFor(c, issues[0], files, attempt(issues[0]).outcome)] + results)
  {
    var x := ResultFor(c, issues[0], files, attempt(issues[0]).outcome);
    var r := [x] + results;
    forall k | 0 <= k < |r|
      ensures r[k].issue in issues && attempt(r[k].issue).Answered?
              && r[k] == ResultFor(c, r[k].issue, files, attempt(r[k].issue).outcome)
    {
      if k > 0 { assert r[k] == results[k - 1]; }
    }
  }

  /** The results are those of the issues whose request ran, in order, and
      the errors those of the issues whose request raised. */
  lemma {:induction false} ProcessIssuesInOrder(c: LlmConfig, issues: seq<Issue>, files: string -> FileRead,
                                                attempt: Issue -> Attempt)
    requires forall i: Issue :: c.provider.Ollama? && attempt(i).Answered? ==> !attempt(i).outcome.ImportFailed?
    ensures Map(ProcessIssues(c, issues, files, attempt).0, IssueOf) == Filter(issues, AnsweredBy(attempt))
  {
    if |issues| > 0 {
      var answered := AnsweredBy(attempt);
      ProcessIssuesInOrder(c, issues[1..], files, attempt);
      ProcessIssuesStep(c, issues, files, attempt);
      assert issues == [issues[0]] + issues[1..];
      FilterConcat([issues[0]], issues[1..], answered);
    }
  }

  /** One turn of the loop, seen through the issues of the results. */
  lemma ProcessIssuesStep(c: LlmConfig, issues: seq<Issue>, files: string -> FileRead, attempt: Issue -> Attempt)
    requires |issues| > 0
    requires forall i: Issue :: c.provider.Ollama? && attempt(i).Answered? ==> !attempt(i).outcome.ImportFailed?
    ensures Map(ProcessIssues(c, issues, files, attempt).0, IssueOf)
            == Filter([issues[0]], AnsweredBy(attempt)) + Map(ProcessIssues(c, issues[1..], files, attempt).0, IssueOf)
  {
    var r := ProcessIssues(c, issues, files, attempt).0;
    var rest := ProcessIssues(c, issues[1..], files, attempt).0;
    FilterSingleton(issues[0], AnsweredBy(attempt));
    if attempt(issues[0]).Answered? {
      var x := ResultFor(c, issues[0], files, attempt(issues[0]).outcome);
      assert r == [x] + rest;
      MapConcat([x], rest, IssueOf);
      assert Map([x], IssueOf) == [issues[0]];
    } else {
      assert r == rest;
    }
  }

  /** `get_ai_suggestions` with the provider chosen by `get_provider`
      (`env` is the environment, `ollamaAnswers` whether a local server
      replies). An unavailable provider yields one error and no results;
      otherwise the selected issues are processed in order. */
  function GetAiSuggestions(issues: seq<Issue>, config: Option<LlmConfig>, env: map<string, string>,
                            ollamaAnswers: bool, maxIssues: int, skipInfo: bool,
                            files: string -> FileRead, attempt: Issue -> Attempt): (s: AnalysisSummary)
    requires forall i: Issue :: GetProvider(config, env).provider.Ollama? && attempt(i).Answered? ==>
                                !attempt(i).outcome.ImportFailed?
    ensures s.provider == GetProvider(config, env).provider.Value() && s.model == GetProvider(config, env).model
    ensures s.totalTokens == 0
    ensures !IsAvailable(GetProvider(config, env), ollamaAnswers) ==>
              s.results == [] && s.errors == [UnavailableMessage(GetProvider(config, env))]
    ensures IsAvailable(GetProvider(config, env), ollamaAnswers) ==>
              |s.results| + |s.errors| == |SelectIssues(issues, maxIssues, skipInfo)|
    ensures IsAvailable(GetProvider(config, env), ollamaAnswers) ==>
              Map(s.results, IssueOf) == Filter(SelectIssues(issues, maxIssues, skipInfo), AnsweredBy(attempt))
    ensures forall k :: 0 <= k < |s.results| ==>
              s.results[k].issue in SelectIssues(issues, maxIssues, skipInfo)
              && attempt(s.results[k].issue).Answered?
              && s.results[k] == ResultFor(GetProvider(config, env), s.results[k].issue, files,
                                           attempt(s.results[k].issue).outcome)
    ensures skipInfo ==> forall k :: 0 <= k < |s.results| ==> s.results[k].issue.severity != Info
  {
    var c := GetProvider(config, env);
    if !IsAvailable(c, ollamaAnswers) then
      AnalysisSummary([], 0, c.provider.Value(), c.model, [UnavailableMessage(c)])
    else
      var selected := SelectIssues(issues, maxIssues, skipInfo);
      var r := ProcessIssues(c, selected, files, attempt);
      ProcessIssuesResults(c, selected, files, attempt);
      ProcessIssuesInOrder(c, selected, files, attempt);
      AnalysisSummary(r.0, 0, c.provider.Value(), c.model, r.1)
  }

  /** A summary's counters never exceed what was processed, and with every
      request answered by a usable reply each result counts as a success. */
  lemma AllFencedRepliesSucceed(issues: seq<Issue>, config: Option<LlmConfig>, env: map<string, string>,
                                ollamaAnswers: bool, maxIssues: int, skipInfo: bool,
                                files: string -> FileRead, attempt: Issue -> Attempt)
    requires forall i: Issue :: GetProvider(config, env).provider.Ollama? && attempt(i).Answered? ==>
                                !attempt(i).outcome.ImportFailed?
    requires forall i: Issue :: attempt(i).Answered? && attempt(i).outcome.Completed?
    requires forall i: Issue :: CodeOf(attempt(i).outcome.text) != ""
    requires IsAvailable(GetProvider(config, env), ollamaAnswers)
    ensures var s := GetAiSuggestions(issues, config, env, ollamaAnswers, maxIssues, skipInfo, files, attempt);
            s.errors == [] && s.ErrorCount() == 0 && s.SuccessCount() == |SelectIssues(issues, maxIssues, skipInfo)|
  {
    var c := GetProvider(config, env);
    var s := GetAiSuggestions(issues, config, env, ollamaAnswers, maxIssues, skipInfo, files, attempt);
    var selected := SelectIssues(issues, maxIssues, skipInfo);
    assert Count(selected, AnsweredBy(attempt)) == |selected|;
    forall k | 0 <= k < |s.results| ensures HasCode(s.results[k]) {
      var i := s.results[k].issue;
      var outcome := attempt(i).outcome;
      assert Generate(c, outcome).Succeeded() by {
        assert Contains(outcome.text, Fence);
      }
    }
  }
}
