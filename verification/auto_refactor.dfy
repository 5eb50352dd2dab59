/** Applying AI suggestions to files: the line splice that replaces a
    function's lines with the refactored code, backups and rollback, the
    decision logic for one suggestion and for a whole summary, and the
    summary's counters.

    The file system is a map from path to contents, and writes cannot
    fail. The clock that names backups, the unified diff (a `difflib`
    call) and the user's answers in interactive mode are parameters. */
module AutoRefactor {
  import opened Wrappers
  import opened Text
  import opened Seqs
  import opened Paths
  import opened StyleRules
  import opened LlmProviders
  import opened AiSuggestions

  /** The files on disk: path to contents. */
  type Files = map<string, string>

  /** What Python's `open` and `shutil.copy2` report for a missing file. */
  function NotFound(path: string): string {
    "[Errno 2] No such file or directory: '" + path + "'"
  }

  const IndexErrorMessage := "list index out of range"

  // ---------------------------------------------------------------------
  // The line splice
  // ---------------------------------------------------------------------

  /** `refactored_code.splitlines(keepends=True)` with a line break added
      to the last line when it has none. */
  function CodeLines(code: string): (r: seq<string>)
    ensures forall i :: 0 <= i < |r| ==> Terminated(r[i])
    ensures code == "" <==> r == []
    ensures Terminated(code) ==> r == SplitLines(code)
    ensures !Terminated(code) && code != "" ==> Concat(r) == code + "\n"
  {
    var ls := SplitLines(code);
    ConcatLast(ls);
    if |ls| > 0 && !Terminated(ls[|ls| - 1]) then
      var init, last := ls[..|ls| - 1], ls[|ls| - 1] + "\n";
      ConcatLast(init + [last]);
      assert (init + [last])[..|ls| - 1] == init;
      init + [last]
    else
      ls
  }

  /** The text of a non-empty sequence of lines ends with its last line. */
  lemma ConcatLast(ls: seq<string>)
    ensures |ls| > 0 ==> Concat(ls) == Concat(ls[..|ls| - 1]) + ls[|ls| - 1]
  {
    if |ls| > 0 {
      ConcatAppend(ls[..|ls| - 1], [ls[|ls| - 1]]);
      assert ls == ls[..|ls| - 1] + [ls[|ls| - 1]];
      assert Concat([ls[|ls| - 1]]) == ls[|ls| - 1] + Concat([]);
    }
  }

  /** `lines[:start_idx] + refactored_lines + lines[end_idx:]` with
      `start_idx = start - 1` and `end_idx = end`, Python slices. */
  function Splice(lines: seq<string>, startLine: int, endLine: int, code: string): seq<string> {
    PyTake(lines, startLine - 1) + CodeLines(code) + PyDrop(lines, endLine)
  }

  /** Within range, the splice keeps the lines before `start` and after
      `end` and puts the code's lines, each terminated, in between. */
  lemma SpliceKeepsOutside(lines: seq<string>, startLine: int, endLine: int, code: string)
    requires 1 <= startLine <= |lines| + 1 && 0 <= endLine <= |lines|
    ensures var r := Splice(lines, startLine, endLine, code);
            var n := |CodeLines(code)|;
            && |r| == (startLine - 1) + n + (|lines| - endLine)
            && r[..startLine - 1] == lines[..startLine - 1]
            && r[startLine - 1 + n..] == lines[endLine..]
            && forall i :: startLine - 1 <= i < startLine - 1 + n ==> Terminated(r[i])
  {
    var a, c, b := lines[..startLine - 1], CodeLines(code), lines[endLine..];
    assert PyTake(lines, startLine - 1) == a;
    assert PyDrop(lines, endLine) == b;
    var r := Splice(lines, startLine, endLine, code);
    assert r == a + c + b;
    assert r[..|a|] == a;
    assert r[|a| + |c|..] == b;
    forall i | |a| <= i < |a| + |c| ensures Terminated(r[i]) {
      assert r[i] == c[i - |a|];
    }
  }

  /** Empty code deletes the range and inserts nothing. */
  lemma SpliceEmptyCode(lines: seq<string>, startLine: int, endLine: int)
    ensures Splice(lines, startLine, endLine, "") == PyTake(lines, startLine - 1) + PyDrop(lines, endLine)
  {
  }

  /** `apply_refactoring`. The original function's text and the
      indentation computed from the first line are not used: only the
      `lines[start_idx]` lookup matters, and it fails outside the file. */
  function ApplyRefactoring(fs: Files, path: string, originalFunction: string, code: string,
                            startLine: int, endLine: int): (r: Result<Files, string>)
    ensures path !in fs ==> r == Failure(NotFound(path))
    ensures path in fs && !PyIndexOk(SplitLines(fs[path]), startLine - 1) ==> r == Failure(IndexErrorMessage)
    ensures path in fs && startLine > |SplitLines(fs[path])| ==> r.Failure?
    ensures r.Success? ==> path in fs && r.value.Keys == fs.Keys
    ensures r.Success? ==> forall p :: p in fs && p != path ==> r.value[p] == fs[p]
    ensures r.Success? && 1 <= startLine && 0 <= endLine <= |SplitLines(fs[path])| ==>
              var lines := SplitLines(fs[path]);
              r.value[path] == Concat(lines[..startLine - 1]) + Concat(CodeLines(code)) + Concat(lines[endLine..])
  {
    if path !in fs then Failure(NotFound(path))
    else
      var lines := SplitLines(fs[path]);
      if !PyIndexOk(lines, startLine - 1) then Failure(IndexErrorMessage)
      else
        var spliced := Splice(lines, startLine, endLine, code);
        ConcatAppend(PyTake(lines, startLine - 1), CodeLines(code));
        ConcatAppend(PyTake(lines, startLine - 1) + CodeLines(code), PyDrop(lines, endLine));
        Success(fs[path := Concat(spliced)])
  }

  /** The result does not depend on the original function's text. */
  lemma ApplyIgnoresOriginal(fs: Files, path: string, o1: string, o2: string, code: string,
                             startLine: int, endLine: int)
    ensures ApplyRefactoring(fs, path, o1, code, startLine, endLine)
            == ApplyRefactoring(fs, path, o2, code, startLine, endLine)
  {
  }

  /** Extraction and application are inverse: putting a function's own
      source back in its place leaves the file as it was, provided the
      range is in the file and the file ends with a line break or the range
      stops before its last line. */
  lemma ApplyOwnSourceIsIdentity(fs: Files, path: string, original: string, startLine: int, endLine: int)
    requires path in fs
    requires 1 <= startLine <= |SplitLines(fs[path])|
    requires startLine - 1 <= endLine <= |SplitLines(fs[path])|
    requires endLine < |SplitLines(fs[path])| || Terminated(fs[path])
    ensures var code := ExtractFunctionSource(Read(SplitLines(fs[path])), startLine, endLine);
            ApplyRefactoring(fs, path, original, code, startLine, endLine) == Success(fs)
  {
    var lines := SplitLines(fs[path]);
    var code := ExtractFunctionSource(Read(lines), startLine, endLine);
    assert code == Concat(lines[startLine - 1..endLine]);
    RangeIsTerminatedLines(fs[path], startLine, endLine);
    SpliceOwnText(lines, startLine, endLine);
    ApplyWrites(fs, path, original, code, startLine, endLine);
    RewriteSame(fs, path, Concat(lines));
  }

  /** Splicing terminated lines back where they came from gives the same
      text. */
  lemma SpliceOwnText(lines: seq<string>, startLine: int, endLine: int)
    requires 1 <= startLine && startLine - 1 <= endLine <= |lines|
    requires var part := lines[startLine - 1..endLine];
             forall i :: 0 <= i < |part| ==> IsLine(part[i]) && Terminated(part[i])
    ensures Concat(Splice(lines, startLine, endLine, Concat(lines[startLine - 1..endLine]))) == Concat(lines)
  {
    CodeLinesOfLines(lines[startLine - 1..endLine]);
    SpliceOwnLines(lines, startLine, endLine);
  }

  /** Writing a file's own contents back changes nothing. */
  lemma RewriteSame(fs: Files, path: string, text: string)
    requires path in fs && fs[path] == text
    ensures fs[path := text] == fs
  {
  }

  /** The lines of a range that stops before the last line, or of a text
      ending in a line break, all end in a line break. */
  lemma RangeIsTerminatedLines(text: string, startLine: int, endLine: int)
    requires 1 <= startLine && startLine - 1 <= endLine <= |SplitLines(text)|
    requires endLine < |SplitLines(text)| || Terminated(text)
    ensures var part := SplitLines(text)[startLine - 1..endLine];
            forall i :: 0 <= i < |part| ==> IsLine(part[i]) && Terminated(part[i])
  {
    var lines := SplitLines(text);
    var part := lines[startLine - 1..endLine];
    forall i | 0 <= i < |part| ensures IsLine(part[i]) && Terminated(part[i]) {
      TerminatedLineAt(text, startLine - 1 + i, endLine);
      assert part[i] == lines[startLine - 1 + i];
    }
  }

  /** One line of such a range ends in a line break. */
  lemma TerminatedLineAt(text: string, j: int, endLine: int)
    requires 0 <= j < endLine <= |SplitLines(text)|
    requires endLine < |SplitLines(text)| || Terminated(text)
    ensures IsLine(SplitLines(text)[j]) && Terminated(SplitLines(text)[j])
  {
    var lines := SplitLines(text);
    if j == |lines| - 1 {
      assert Concat(lines) == text;
      LastLineTerminated(lines);
    }
  }

  /** Inside the file, `apply_refactoring` writes the spliced lines. */
  lemma ApplyWrites(fs: Files, path: string, original: string, code: string, startLine: int, endLine: int)
    requires path in fs && PyIndexOk(SplitLines(fs[path]), startLine - 1)
    ensures ApplyRefactoring(fs, path, original, code, startLine, endLine)
            == Success(fs[path := Concat(Splice(SplitLines(fs[path]), startLine, endLine, code))])
  {
  }

  /** Terminated lines are their own code lines. */
  lemma CodeLinesOfLines(part: seq<string>)
    requires forall i :: 0 <= i < |part| ==> IsLine(part[i]) && Terminated(part[i])
    ensures CodeLines(Concat(part)) == part
  {
    SplitLinesOfConcat(part);
  }

  lemma SpliceOwnLines(lines: seq<string>, startLine: int, endLine: int)
    requires 1 <= startLine && startLine - 1 <= endLine <= |lines|
    requires CodeLines(Concat(lines[startLine - 1..endLine])) == lines[startLine - 1..endLine]
    ensures Splice(lines, startLine, endLine, Concat(lines[startLine - 1..endLine])) == lines
  {
    assert lines == lines[..startLine - 1] + lines[startLine - 1..endLine] + lines[endLine..];
  }

  /** A text ending in a line break splits into lines whose last one ends
      in a line break. */
  lemma LastLineTerminated(lines: seq<string>)
    requires lines == SplitLines(Concat(lines)) && Terminated(Concat(lines))
    ensures Terminated(lines[|lines| - 1])
  {
    ConcatLast(lines);
  }

  // ---------------------------------------------------------------------
  // Backups
  // ---------------------------------------------------------------------

  /** Where `create_backup` puts the copy: `<dir>/<parent name>/<stem>_<timestamp><suffix>`,
      without the middle part for a file whose parent has no name. */
  function BackupPath(path: string, backupDir: string, timestamp: string): (r: string)
    ensures EndsWith(r, Stem(path) + "_" + timestamp + Suffix(path))
  {
    var backupName := Stem(path) + "_" + timestamp + Suffix(path);
    var relativeDir := Name(Parent(path));
    if relativeDir != "" then JoinPath(JoinPath(backupDir, relativeDir), backupName)
    else JoinPath(backupDir, backupName)
  }

  /** `create_backup`: copies the file and returns the copy's path. */
  function CreateBackup(fs: Files, path: string, backupDir: string, timestamp: string): (r: Result<(string, Files), string>)
    ensures path !in fs ==> r == Failure(NotFound(path))
    ensures path in fs ==> r.Success? && r.value.0 == BackupPath(path, backupDir, timestamp)
    ensures r.Success? ==> r.value.1 == fs[r.value.0 := fs[path]]
  {
    if path !in fs then Failure(NotFound(path))
    else
      var target := BackupPath(path, backupDir, timestamp);
      Success((target, fs[target := fs[path]]))
  }

  function MissingBackupMessage(backupPath: string): string {
    "Backup file not found: " + backupPath
  }

  /** `rollback_file`: copies the backup over the file, or reports that
      there is no backup and changes nothing. */
  function RollbackFile(fs: Files, path: string, backupPath: string): (r: Result<Files, string>)
    ensures backupPath !in fs <==> r == Failure(MissingBackupMessage(backupPath))
    ensures r.Success? ==> backupPath in fs && path in r.value && r.value[path] == fs[backupPath]
    ensures r.Success? ==> forall p :: p in fs && p != path ==> p in r.value && r.value[p] == fs[p]
  {
    if backupPath !in fs then Failure(MissingBackupMessage(backupPath))
    else Success(fs[path := fs[backupPath]])
  }

  /** A backup followed by a rollback restores the file. */
  lemma BackupThenRollback(fs: Files, path: string, backupDir: string, timestamp: string)
    requires path in fs
    ensures var b := CreateBackup(fs, path, backupDir, timestamp).value;
            RollbackFile(b.1, path, b.0) == Success(b.1[path := fs[path]])
  {
  }

  // ---------------------------------------------------------------------
  // Results and summary
  // ---------------------------------------------------------------------

  datatype RefactorResult = RefactorResult(filePath: string, functionName: string, originalCode: string,
                                           refactoredCode: string, startLine: int, endLine: int,
                                           backupPath: Option<string>, diff: string, applied: bool,
                                           skipped: bool, error: Option<string>)

  /** Python's truth value of `result.error`. */
  predicate HasError(r: RefactorResult) {
    r.error.Some? && r.error.value != ""
  }

  predicate IsApplied(r: RefactorResult) { r.applied }

  predicate IsSkipped(r: RefactorResult) { r.skipped }

  /** At most one of the three outcomes is recorded. */
  predicate Settled(r: RefactorResult) {
    !(r.applied && r.skipped) && !(r.applied && HasError(r)) && !(r.skipped && HasError(r))
  }

  datatype RefactorSummary = RefactorSummary(results: seq<RefactorResult>, backupDir: Option<string>, dryRun: bool)
  {
    function TotalCount(): nat { |results| }

    function AppliedCount(): (n: nat)
      ensures n <= TotalCount()
    {
      Count(results, IsApplied)
    }

    function SkippedCount(): (n: nat)
      ensures n <= TotalCount()
    {
      Count(results, IsSkipped)
    }

    function ErrorCount(): (n: nat)
      ensures n <= TotalCount()
    {
      Count(results, HasError)
    }
  }

  predicate AppliedOrSkipped(r: RefactorResult) { r.applied || r.skipped }

  predicate AnyOutcome(r: RefactorResult) { r.applied || r.skipped || HasError(r) }

  /** When no result records two outcomes, the three counters add up to at
      most the number of results. */
  lemma CountersBounded(s: RefactorSummary)
    requires forall i :: 0 <= i < |s.results| ==> Settled(s.results[i])
    ensures s.AppliedCount() + s.SkippedCount() + s.ErrorCount() <= s.TotalCount()
  {
    CountDisjointUnion(s.results, IsApplied, IsSkipped, AppliedOrSkipped);
    CountDisjointUnion(s.results, AppliedOrSkipped, HasError, AnyOutcome);
  }

  // ---------------------------------------------------------------------
  // One suggestion
  // ---------------------------------------------------------------------

  const NoCodeProvided := "No refactored code provided"
  const NoCodeAvailable := "No refactored code available"

  /** The result fields copied from the suggestion. */
  function BaseResult(ai: AnalysisResult, code: string): RefactorResult {
    RefactorResult(ai.issue.file, ai.issue.functionName, ai.originalCode, code, ai.issue.startLine,
                   ai.issue.endLine, None, "", false, false, None)
  }

  /** Python's truth value of an optional string. */
  predicate Truthy(s: Option<string>) {
    s.Some? && s.value != ""
  }

  /** The backup step of `process_single_refactoring`: a copy of the file
      when a backup directory is given, otherwise nothing. */
  function BackupStep(fs: Files, file: string, backupDir: Option<string>, timestamp: string)
    : (r: Result<(Option<string>, Files), string>)
    ensures r.Success? && r.value.0.None? ==> !Truthy(backupDir) && r.value.1 == fs
    ensures r.Success? && r.value.0.Some? ==>
              Truthy(backupDir) && file in fs && r.value.1 == fs[r.value.0.value := fs[file]]
    ensures !Truthy(backupDir) ==> r == Success((None, fs))
    ensures Truthy(backupDir) && file in fs ==>
              var bp := BackupPath(file, backupDir.value, timestamp);
              r == Success((Some(bp), fs[bp := fs[file]]))
  {
    if Truthy(backupDir) then
      match CreateBackup(fs, file, backupDir.value, timestamp)
      case Success(b) => Success((Some(b.0), b.1))
      case Failure(e) => Failure(e)
    else Success((None, fs))
  }

  /** `process_single_refactoring`. `differ` is `generate_diff`;
      `timestamp` names the backup. Returns the result and the files
      afterwards. */
  function ProcessSingle(ai: AnalysisResult, dryRun: bool, backupDir: Option<string>, fs: Files,
                         timestamp: string, differ: (string, string, string) -> string)
    : (out: (RefactorResult, Files))
    ensures var r := out.0;
            r.filePath == ai.issue.file && r.functionName == ai.issue.functionName
            && r.refactoredCode == ai.suggestion.refactoredCode && r.originalCode == ai.originalCode
            && !r.skipped && Settled(r)
    ensures ai.suggestion.refactoredCode == "" ==>
              out.0.error == Some(NoCodeProvided) && out.0.diff == "" && !out.0.applied && out.1 == fs
    ensures ai.suggestion.refactoredCode != "" ==>
              out.0.diff == differ(ai.originalCode, ai.suggestion.refactoredCode, ai.issue.file)
    ensures dryRun ==> !out.0.applied && out.1 == fs && out.0.backupPath.None?
    ensures out.0.backupPath.Some? ==> !dryRun && Truthy(backupDir)
    ensures out.0.applied <==> out.0.error.None? && !dryRun && ai.suggestion.refactoredCode != ""
    ensures !out.0.applied ==>
              forall p :: p in fs && (out.0.backupPath.None? || p != out.0.backupPath.value) ==>
                p in out.1 && out.1[p] == fs[p]
    ensures out.0.applied ==>
              forall p :: p in fs && p != ai.issue.file && (out.0.backupPath.None? || p != out.0.backupPath.value) ==>
                p in out.1 && out.1[p] == fs[p]
    ensures out.0.applied ==>
              var b := BackupStep(fs, ai.issue.file, backupDir, timestamp);
              b.Success? && ApplyRefactoring(b.value.1, ai.issue.file, ai.originalCode, ai.suggestion.refactoredCode,
                                             ai.issue.startLine, ai.issue.endLine) == Success(out.1)
    ensures !dryRun && ai.suggestion.refactoredCode != "" && Truthy(backupDir) && ai.issue.file in fs ==>
              var bp := BackupPath(ai.issue.file, backupDir.value, timestamp);
              out.0.backupPath == Some(bp) && bp in out.1 && (bp != ai.issue.file ==> out.1[bp] == fs[ai.issue.file])
  {
    var code := ai.suggestion.refactoredCode;
    var file := ai.issue.file;
    var base := BaseResult(ai, code);
    if code == "" then (base.(error := Some(NoCodeProvided)), fs)
    else
      var withDiff := base.(diff := differ(ai.originalCode, code, file));
      if dryRun then (withDiff, fs)
      else
        WriteStep(withDiff, fs, backupDir, timestamp)
  }

  /** Writes the refactored lines over a result whose backup step is done.
      When the write fails, the file is restored from the backup if there is one. */
  function ApplyOrRestore(r: RefactorResult, g: Files): (out: (RefactorResult, Files))
    requires r.error.None? && !r.applied && !r.skipped
    ensures out.0.(applied := false, error := None) == r
    ensures out.0.applied <==> out.0.error.None?
    ensures out.0.applied ==>
              ApplyRefactoring(g, r.filePath, r.originalCode, r.refactoredCode, r.startLine, r.endLine)
                == Success(out.1)
    ensures forall p :: p in g && p != r.filePath ==> p in out.1 && out.1[p] == g[p]
    ensures !out.0.applied && (r.backupPath.None? || r.backupPath.value !in g) ==> out.1 == g
    ensures !out.0.applied && r.backupPath.Some? && r.backupPath.value in g ==>
              r.filePath in out.1 && out.1[r.filePath] == g[r.backupPath.value]
  {
    match ApplyRefactoring(g, r.filePath, r.originalCode, r.refactoredCode, r.startLine, r.endLine)
    case Success(after) => (r.(applied := true), after)
    case Failure(e) =>
      var restored :=
        if r.backupPath.Some? then
          match RollbackFile(g, r.filePath, r.backupPath.value)
          case Success(back) => back
          case Failure(_) => g
        else g;
      (r.(error := Some(e)), restored)
  }

  /** The writing part of `process_single_refactoring` for the result `r0`
      of a suggestion with code: back up when asked, apply, and roll back
      from the backup when applying fails. Only the result's backup path,
      error and applied flag change. */
  function WriteStep(r0: RefactorResult, fs: Files, backupDir: Option<string>, timestamp: string)
    : (out: (RefactorResult, Files))
    requires r0.error.None? && !r0.applied && !r0.skipped && r0.backupPath.None?
    ensures out.0.(applied := false, error := None, backupPath := None) == r0
    ensures out.0.backupPath.Some? ==> Truthy(backupDir)
    ensures out.0.applied <==> out.0.error.None?
    ensures !out.0.applied ==>
              forall p :: p in fs && (out.0.backupPath.None? || p != out.0.backupPath.value) ==>
                p in out.1 && out.1[p] == fs[p]
    ensures out.0.applied ==>
              forall p :: p in fs && p != r0.filePath && (out.0.backupPath.None? || p != out.0.backupPath.value) ==>
                p in out.1 && out.1[p] == fs[p]
    ensures out.0.applied ==>
              var b := BackupStep(fs, r0.filePath, backupDir, timestamp);
              b.Success? && ApplyRefactoring(b.value.1, r0.filePath, r0.originalCode, r0.refactoredCode,
                                             r0.startLine, r0.endLine) == Success(out.1)
    ensures Truthy(backupDir) && r0.filePath in fs ==>
              var bp := BackupPath(r0.filePath, backupDir.value, timestamp);
              out.0.backupPath == Some(bp) && bp in out.1 && (bp != r0.filePath ==> out.1[bp] == fs[r0.filePath])
  {
    match BackupStep(fs, r0.filePath, backupDir, timestamp)
    case Failure(e) => (r0.(error := Some("Failed to create backup: " + e)), fs)
    case Success(b) => AfterBackup(r0, fs, b.0, b.1)
  }

  /** The write once the backup step has produced the backup path `bk`
      and the files `g`, stated against the files `fs` before the backup. */
  function AfterBackup(r0: RefactorResult, fs: Files, bk: Option<string>, g: Files): (out: (RefactorResult, Files))
    requires r0.error.None? && !r0.applied && !r0.skipped && r0.backupPath.None?
    requires bk.None? ==> g == fs
    requires bk.Some? ==> r0.filePath in fs && g == fs[bk.value := fs[r0.filePath]]
    ensures out.0.(applied := false, error := None, backupPath := None) == r0
    ensures out.0.backupPath == bk
    ensures out.0.applied <==> out.0.error.None?
    ensures out.0.applied ==>
              ApplyRefactoring(g, r0.filePath, r0.originalCode, r0.refactoredCode, r0.startLine, r0.endLine)
                == Success(out.1)
    ensures !out.0.applied ==>
              forall p :: p in fs && (bk.None? || p != bk.value) ==> p in out.1 && out.1[p] == fs[p]
    ensures out.0.applied ==>
              forall p :: p in fs && p != r0.filePath && (bk.None? || p != bk.value) ==>
                p in out.1 && out.1[p] == fs[p]
    ensures bk.Some? ==> bk.value in out.1 && (bk.value != r0.filePath ==> out.1[bk.value] == fs[r0.filePath])
  {
    ApplyOrRestore(r0.(backupPath := bk), g)
  }

  // ---------------------------------------------------------------------
  // A whole summary
  // ---------------------------------------------------------------------

  /** The user's answer to `prompt_for_approval`. */
  datatype Approval = Approve | Decline | Quit

  /** The options of `auto_refactor` together with its environment: the
      backup timestamp and the answer at the prompt for the `k`-th
      suggestion, and the diff function. */
  datatype Options = Options(dryRun: bool, interactive: bool, backupDir: string, createBackups: bool,
                             clock: nat -> string, answer: nat -> Approval,
                             differ: (string, string, string) -> string)
  {
    /** `backup_dir if create_backups else None`. */
    function BackupTarget(): Option<string> {
      if createBackups then Some(backupDir) else None
    }
  }

  /** The loop of `auto_refactor` from the `k`-th suggestion on. A suggestion
      without code is recorded as an error; in a dry run each suggestion is
      recorded with its diff; otherwise, after an approval in interactive
      mode (a refusal records a skip, quitting ends the loop), it is
      applied. */
  function RefactorLoop(ais: seq<AnalysisResult>, k: nat, o: Options, fs: Files)
    : (out: (seq<RefactorResult>, Files))
    ensures |out.0| <= |ais|
    decreases |ais|
  {
    if |ais| == 0 then ([], fs)
    else
      var ai := ais[0];
      if ai.suggestion.refactoredCode == "" then
        var r := BaseResult(ai, "").(error := Some(NoCodeAvailable));
        var rest := RefactorLoop(ais[1..], k + 1, o, fs);
        ([r] + rest.0, rest.1)
      else
        var preview := ProcessSingle(ai, true, o.BackupTarget(), fs, o.clock(k), o.differ).0;
        if o.dryRun then
          var rest := RefactorLoop(ais[1..], k + 1, o, fs);
          ([preview] + rest.0, rest.1)
        else if o.interactive && o.answer(k) == Quit then
          ([], fs)
        else if o.interactive && o.answer(k) == Decline then
          var rest := RefactorLoop(ais[1..], k + 1, o, fs);
          ([preview.(skipped := true)] + rest.0, rest.1)
        else
          var applied := ProcessSingle(ai, false, o.BackupTarget(), fs, o.clock(k), o.differ);
          var rest := RefactorLoop(ais[1..], k + 1, o, applied.1);
          ([applied.0] + rest.0, rest.1)
  }

  /** The files after processing the first suggestion. */
  function FilesAfterFirst(ais: seq<AnalysisResult>, k: nat, o: Options, fs: Files): Files
    requires |ais| > 0
  {
    var ai := ais[0];
    if ai.suggestion.refactoredCode != "" && !o.dryRun && !(o.interactive && o.answer(k) != Approve)
    then ProcessSingle(ai, false, o.BackupTarget(), fs, o.clock(k), o.differ).1
    else fs
  }

  /** The first result, if the loop records one, followed by the rest. */
  lemma RefactorLoopStep(ais: seq<AnalysisResult>, k: nat, o: Options, fs: Files)
    requires |ais| > 0
    ensures var out := RefactorLoop(ais, k, o, fs).0;
            var rest := RefactorLoop(ais[1..], k + 1, o, FilesAfterFirst(ais, k, o, fs)).0;
            if o.interactive && !o.dryRun && ais[0].suggestion.refactoredCode != "" && o.answer(k) == Quit
            then out == []
            else |out| > 0 && out[1..] == rest
  {
  }

  /** Every suggestion gets a result, in order, unless the user quits. */
  lemma {:induction false} RefactorLoopLength(ais: seq<AnalysisResult>, k: nat, o: Options, fs: Files)
    ensures o.dryRun || !o.interactive ==> |RefactorLoop(ais, k, o, fs).0| == |ais|
    decreases |ais|
  {
    if |ais| > 0 {
      RefactorLoopStep(ais, k, o, fs);
      RefactorLoopLength(ais[1..], k + 1, o, FilesAfterFirst(ais, k, o, fs));
    }
  }

  /** A result belongs to its suggestion and records at most one outcome;
      only a real run applies, only a suggestion with code is applied, and
      only an interactive run skips. */
  predicate Fits(r: RefactorResult, ai: AnalysisResult, o: Options) {
    && Settled(r)
    && r.filePath == ai.issue.file && r.functionName == ai.issue.functionName
    && (r.applied ==> !o.dryRun && ai.suggestion.refactoredCode != "")
    && (r.skipped ==> o.interactive && !o.dryRun)
  }

  /** The first result fits the first suggestion. */
  lemma FirstResult(ais: seq<AnalysisResult>, k: nat, o: Options, fs: Files)
    requires |ais| > 0 && |RefactorLoop(ais, k, o, fs).0| > 0
    ensures Fits(RefactorLoop(ais, k, o, fs).0[0], ais[0], o)
  {
  }

  /** Each result fits its suggestion. */
  lemma {:induction false} RefactorLoopResults(ais: seq<AnalysisResult>, k: nat, o: Options, fs: Files)
    ensures var out := RefactorLoop(ais, k, o, fs).0;
            forall i :: 0 <= i < |out| ==> Fits(out[i], ais[i], o)
    decreases |ais|
  {
    var out := RefactorLoop(ais, k, o, fs).0;
    if |out| > 0 {
      var fs' := FilesAfterFirst(ais, k, o, fs);
      RefactorLoopStep(ais, k, o, fs);
      FirstResult(ais, k, o, fs);
      RefactorLoopResults(ais[1..], k + 1, o, fs');
      FitsCons(out, ais, o);
    }
  }

  lemma FitsCons(out: seq<RefactorResult>, ais: seq<AnalysisResult>, o: Options)
    requires 0 < |out| <= |ais| && Fits(out[0], ais[0], o)
    requires forall i :: 0 <= i < |out| - 1 ==> Fits(out[1..][i], ais[1..][i], o)
    ensures forall i :: 0 <= i < |out| ==> Fits(out[i], ais[i], o)
  {
    forall i | 1 <= i < |out| ensures Fits(out[i], ais[i], o) {
      assert out[i] == out[1..][i - 1] && ais[i] == ais[1..][i - 1];
    }
  }

  /** A dry run writes nothing. */
  lemma {:induction false} RefactorLoopDryRun(ais: seq<AnalysisResult>, k: nat, o: Options, fs: Files)
    ensures o.dryRun ==> RefactorLoop(ais, k, o, fs).1 == fs
    decreases |ais|
  {
    if |ais| > 0 {
      RefactorLoopDryRun(ais[1..], k + 1, o, fs);
    }
  }

  /** `auto_refactor`: the summary records the backup directory only when
      backups are made for real, and one result per suggestion processed. */
  function AutoRefactor(summary: AnalysisSummary, o: Options, fs: Files): (out: (RefactorSummary, Files))
    ensures out.0.dryRun == o.dryRun
    ensures out.0.backupDir.Some? <==> o.createBackups && !o.dryRun
    ensures out.0.backupDir.Some? ==> out.0.backupDir.value == o.backupDir
    ensures summary.results == [] ==> out.0.results == [] && out.1 == fs
    ensures o.dryRun ==> out.1 == fs && out.0.AppliedCount() == 0 && out.0.TotalCount() == |summary.results|
    ensures !o.interactive ==> out.0.TotalCount() == |summary.results| && out.0.SkippedCount() == 0
    ensures out.0.AppliedCount() + out.0.SkippedCount() + out.0.ErrorCount() <= out.0.TotalCount()
  {
    var backupDir := if o.createBackups && !o.dryRun then Some(o.backupDir) else None;
    var loop := RefactorLoop(summary.results, 0, o, fs);
    var s := RefactorSummary(loop.0, backupDir, o.dryRun);
    RefactorLoopLength(summary.results, 0, o, fs);
    RefactorLoopResults(summary.results, 0, o, fs);
    RefactorLoopDryRun(summary.results, 0, o, fs);
    CountersBounded(s);
    (s, loop.1)
  }
}
