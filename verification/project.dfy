/** The project-level analysis: collecting signatures from every Python
    file, grouping duplicates, and the architecture recommendations. The
    file search and the reading and parsing of each file are inputs: the
    list of paths found under the root and a `parse` oracle giving each
    path's tree, or `None` when it cannot be read or parsed. */
module Project {
  import opened Wrappers
  import opened Text
  import opened Seqs
  import opened Paths
  import opened PyAst
  import opened Extractor
  import opened Duplicates

  datatype ProjectAnalysis = ProjectAnalysis(rootPath: string, filesAnalyzed: nat, functionsFound: nat,
                                             duplicates: seq<DuplicateGroup>, recommendations: seq<string>)
  {
    /** `duplicate_count`: the functions over all groups. */
    function DuplicateCount(): int { Sum(duplicates, GroupCount) }

    /** `potential_savings`: the savings over all groups. */
    function PotentialSavings(): int { Sum(duplicates, GroupSavings) }
  }

  function GroupSavings(g: DuplicateGroup): int { g.PotentialSavings() }

  function GroupLines(g: DuplicateGroup): int { g.TotalLines() }

  // ---------------------------------------------------------------------
  // How many functions the duplicate groups hold
  // ---------------------------------------------------------------------

  /** Another candidate shares the body hash of `s`. */
  predicate HasTwin(cands: seq<Signature>, s: Signature) {
    |Bucket(cands, s.bodyHash)| >= 2
  }

  /** The candidates with a twin. */
  function Twinned(cands: seq<Signature>): Signature -> bool {
    (s: Signature) => HasTwin(cands, s)
  }

  /** The candidates with a twin whose hash is among `hs`. */
  function TwinHashIn(cands: seq<Signature>, hs: seq<string>): Signature -> bool {
    (s: Signature) => s.bodyHash in hs && HasTwin(cands, s)
  }

  /** The candidates with a twin whose hash is `h`. */
  function TwinHashIs(cands: seq<Signature>, h: string): Signature -> bool {
    (s: Signature) => s.bodyHash == h && HasTwin(cands, s)
  }

  lemma {:induction false} GroupsForCount(cands: seq<Signature>, hs: seq<string>)
    requires Distinct(hs)
    ensures Sum(GroupsFor(cands, hs), GroupCount) == Count(cands, TwinHashIn(cands, hs))
  {
    if |hs| == 0 {
      assert Count(cands, TwinHashIn(cands, hs)) == 0;
    } else {
      assert Distinct(hs[1..]) by {
        forall i, j | 0 <= i < j < |hs| - 1 ensures hs[1..][i] != hs[1..][j] {
          assert hs[1..][i] == hs[i + 1];
        }
      }
      GroupsForCount(cands, hs[1..]);
      assert hs[0] !in hs[1..];
      CountDisjointUnion(cands, TwinHashIs(cands, hs[0]), TwinHashIn(cands, hs[1..]), TwinHashIn(cands, hs));
      GroupsForHeadCount(cands, hs);
    }
  }

  /** The first hash contributes its bucket when that is a group, and
      nothing otherwise. */
  lemma GroupsForHeadCount(cands: seq<Signature>, hs: seq<string>)
    requires |hs| > 0
    ensures Sum(GroupsFor(cands, hs), GroupCount)
            == Count(cands, TwinHashIs(cands, hs[0])) + Sum(GroupsFor(cands, hs[1..]), GroupCount)
  {
    var h := hs[0];
    var b := Bucket(cands, h);
    var rest := GroupsFor(cands, hs[1..]);
    if |b| >= 2 {
      CountCongruent(cands, TwinHashIs(cands, h), HashIs(h));
      CountIsFilterLength(cands, HashIs(h));
      var g := DuplicateGroup(b, 1.0);
      assert GroupsFor(cands, hs) == [g] + rest;
      assert ([g] + rest)[1..] == rest;
    } else {
      assert Count(cands, TwinHashIs(cands, h)) == 0;
    }
  }

  /** `duplicate_count` of the groups is the number of candidates whose
      body hash some other candidate shares: every such function is in
      exactly one group and no other function is in any. */
  lemma DuplicateCountIsTwins(fs: seq<Signature>, threshold: real, minLines: int)
    ensures var cands := Candidates(fs, minLines);
            Sum(FindDuplicates(fs, threshold, minLines), GroupCount)
            == Count(cands, Twinned(cands))
  {
    var cands := Candidates(fs, minLines);
    var hs := FirstOccurrences(Hashes(cands));
    FirstOccurrencesFacts(Hashes(cands));
    SumPermutation(FindDuplicates(fs, threshold, minLines), GroupsFor(cands, hs), GroupCount);
    GroupsForCount(cands, hs);
    forall i | 0 <= i < |cands| ensures TwinHashIn(cands, hs)(cands[i]) == Twinned(cands)(cands[i]) {
      assert Hashes(cands)[i] == cands[i].bodyHash;
      assert cands[i].bodyHash in hs;
    }
    CountCongruent(cands, TwinHashIn(cands, hs), Twinned(cands));
  }

  /** With a non-negative minimum length the savings are non-negative and
      at most the lines of all grouped functions. */
  lemma SavingsBounded(fs: seq<Signature>, threshold: real, minLines: int)
    requires minLines >= 0
    ensures var r := FindDuplicates(fs, threshold, minLines);
            0 <= Sum(r, GroupSavings) <= Sum(r, GroupLines)
  {
    var r := FindDuplicates(fs, threshold, minLines);
    var cands := Candidates(fs, minLines);
    FindDuplicatesGroups(fs, threshold, minLines);
    forall i | 0 <= i < |r| ensures 0 <= GroupSavings(r[i]) <= GroupLines(r[i]) {
      var g := r[i];
      forall k | 0 <= k < |g.functions| ensures LineCountOf(g.functions[k]) >= 0 {
        assert g.functions[k] in cands;
      }
      SumNonNegative(g.functions, LineCountOf);
    }
    SumNonNegative(r, GroupSavings);
    SumMonotone(r, GroupSavings, GroupLines);
  }

  // ---------------------------------------------------------------------
  // generate_recommendations
  // ---------------------------------------------------------------------

  /** Names never reported as repeated. */
  const Excluded: set<string> := {"__init__", "main", "setup"}

  /** How many extracted functions carry `name` (occurrences, not distinct
      files). */
  function Occurrences(fs: seq<Signature>, name: string): nat {
    Count(fs, (s: Signature) => s.name == name)
  }

  predicate Repeated(fs: seq<Signature>, name: string) {
    Occurrences(fs, name) >= 3 && name !in Excluded
  }

  /** The names reported as repeated, in order of first appearance. */
  function RepeatedNames(fs: seq<Signature>): seq<string> {
    Filter(FirstOccurrences(Names(fs)), (n: string) => Repeated(fs, n))
  }

  function SavingsLine(dups: seq<DuplicateGroup>): string {
    "Found " + NatToString(|dups|) + " group(s) of duplicate code. Consolidating could save ~"
      + IntToString(Sum(dups, GroupSavings)) + " lines."
  }

  function RepeatLine(name: string, n: nat): string {
    "Function '" + name + "' appears in " + NatToString(n) + " files. Consider if these should be consolidated."
  }

  function RepeatLines(fs: seq<Signature>, names: seq<string>): (r: seq<string>)
    ensures |r| == |names|
    ensures forall k :: 0 <= k < |names| ==> r[k] == RepeatLine(names[k], Occurrences(fs, names[k]))
  {
    if |names| == 0 then [] else [RepeatLine(names[0], Occurrences(fs, names[0]))] + RepeatLines(fs, names[1..])
  }

  /** `generate_recommendations`. */
  function Recommendations(fs: seq<Signature>, dups: seq<DuplicateGroup>): (r: seq<string>)
    ensures |dups| > 0 <==> |r| > 0 && StartsWith(r[0], "Found ")
    ensures |dups| > 0 ==> r[0] == SavingsLine(dups)
  {
    var names := RepeatedNames(fs);
    var lines := RepeatLines(fs, names);
    if |dups| > 0 then
      SavingsLineFound(dups);
      [SavingsLine(dups)] + lines
    else if |lines| > 0 then
      RepeatLineNotFound(names[0], Occurrences(fs, names[0]));
      lines
    else
      lines
  }

  lemma SavingsLineFound(dups: seq<DuplicateGroup>)
    ensures StartsWith(SavingsLine(dups), "Found ")
  {
    assert SavingsLine(dups)[..6] == "Found ";
  }

  /** After the optional savings line come the repeated-name lines, one
      per repeated name, in order. */
  lemma RecommendationsLines(fs: seq<Signature>, dups: seq<DuplicateGroup>)
    ensures var r := Recommendations(fs, dups);
            var names := RepeatedNames(fs);
            var off := if |dups| > 0 then 1 else 0;
            && |r| == off + |names|
            && forall k :: 0 <= k < |names| ==> r[off + k] == RepeatLine(names[k], Occurrences(fs, names[k]))
  {
    var r := Recommendations(fs, dups);
    var names := RepeatedNames(fs);
    var lines := RepeatLines(fs, names);
    var off := if |dups| > 0 then 1 else 0;
    assert r == (if |dups| > 0 then [SavingsLine(dups)] else []) + lines;
    forall k | 0 <= k < |names| ensures r[off + k] == RepeatLine(names[k], Occurrences(fs, names[k])) {
      assert r[off + k] == lines[k];
    }
  }

  lemma RepeatLineNotFound(name: string, n: nat)
    ensures !StartsWith(RepeatLine(name, n), "Found ")
  {
    assert RepeatLine(name, n)[0] == 'F' && RepeatLine(name, n)[1] == 'u';
  }

  /** The repeated names are exactly the names occurring three or more
      times outside the excluded ones, each once, in order of first
      appearance among the extracted functions. */
  lemma RepeatedNamesSpec(fs: seq<Signature>)
    ensures forall x :: x in RepeatedNames(fs) <==> x in Names(fs) && Occurrences(fs, x) >= 3 && x !in Excluded
    ensures Distinct(RepeatedNames(fs))
    ensures forall i, j :: 0 <= i < j < |RepeatedNames(fs)| ==>
              RepeatedNames(fs)[i] in Names(fs) && RepeatedNames(fs)[j] in Names(fs)
              && IndexOf(Names(fs), RepeatedNames(fs)[i]) < IndexOf(Names(fs), RepeatedNames(fs)[j])
  {
    var ns := Names(fs);
    var firsts := FirstOccurrences(ns);
    var p := (n: string) => Repeated(fs, n);
    FirstOccurrencesFacts(ns);
    FirstOccurrencesOrdered(ns);
    FilterKeepsDistinct(firsts, p);
    FilterKeepsOrder(firsts, p, (x: string, y: string) => x in ns && y in ns && IndexOf(ns, x) < IndexOf(ns, y));
    var r := RepeatedNames(fs);
    forall x ensures x in r <==> x in ns && Occurrences(fs, x) >= 3 && x !in Excluded {
      if x in ns && Occurrences(fs, x) >= 3 && x !in Excluded {
        var k :| 0 <= k < |firsts| && firsts[k] == x;
        assert p(firsts[k]);
      }
    }
  }

  /** Three functions named `helper`, all in `util.py`. */
  function ThreeHelpers(): seq<Signature> {
    var s := Signature("util.py", "helper", 1, 5, [], "h", 0, 5);
    [s, s.(startLine := 7, endLine := 11), s.(startLine := 13, endLine := 17)]
  }

  lemma ThreeHelpersCount()
    ensures Names(ThreeHelpers()) == ["helper", "helper", "helper"]
    ensures Occurrences(ThreeHelpers(), "helper") == 3
  {
    var fs := ThreeHelpers();
    var same := (t: Signature) => t.name == "helper";
    assert fs[1..][1..][1..] == [];
    assert Count(fs[1..][1..], same) == 1;
  }

  /** Three functions of one name in one file are reported: the rule counts
      occurrences, not files. */
  lemma OneFileRepeats()
    ensures RepeatedNames(ThreeHelpers()) == ["helper"]
    ensures Recommendations(ThreeHelpers(), []) == [RepeatLine("helper", 3)]
  {
    var fs := ThreeHelpers();
    ThreeHelpersCount();
    FirstOccurrencesTriple("helper");
    FilterSingleton("helper", (n: string) => Repeated(fs, n));
    assert RepeatLines(fs, ["helper"]) == [RepeatLine("helper", 3)];
  }

  // ---------------------------------------------------------------------
  // analyze_project
  // ---------------------------------------------------------------------

  /** The Python files analysed: the root alone when it is a file ending in
      `.py` (nothing when it is another file), else every `.py` path found
      below it. */
  function PythonFiles(root: string, rootIsFile: bool, found: seq<string>): (r: seq<string>)
    ensures rootIsFile && Suffix(root) == ".py" ==> r == [root]
    ensures rootIsFile && Suffix(root) != ".py" ==> r == []
    ensures !rootIsFile ==> r == found
  {
    if rootIsFile then (if Suffix(root) == ".py" then [root] else []) else found
  }

  /** The definitions a parse result holds (none for a failed parse). */
  function DefsIn(parsed: Option<Tree>): nat {
    match parsed
    case None => 0
    case Some(t) => DefCount(t)
  }

  /** The signatures of every file, file by file. */
  function ExtractAll(files: seq<string>, parse: string -> Option<Tree>, digest: string -> string): (r: seq<Signature>)
    ensures |r| == Sum(files, (f: string) => DefsIn(parse(f)))
    ensures forall i :: 0 <= i < |r| ==> r[i].file in files
  {
    if |files| == 0 then []
    else
      var first := ExtractFunctions(files[0], parse(files[0]), digest);
      var rest := ExtractAll(files[1..], parse, digest);
      assert forall i :: 0 <= i < |rest| ==> rest[i].file in files[1..];
      first + rest
  }

  /** `analyze_project`. The similarity threshold is passed on and has no
      effect. */
  function AnalyzeProject(rootPath: string, rootIsFile: bool, found: seq<string>,
                          parse: string -> Option<Tree>, digest: string -> string,
                          minLines: int, threshold: real): (r: ProjectAnalysis)
    ensures var files := PythonFiles(rootPath, rootIsFile, found);
            && r.rootPath == rootPath
            && r.filesAnalyzed == |files|
            && r.functionsFound == Sum(files, (f: string) => DefsIn(parse(f)))
    ensures |r.duplicates| > 0 <==> |r.recommendations| > 0 && StartsWith(r.recommendations[0], "Found ")
  {
    var files := PythonFiles(rootPath, rootIsFile, found);
    var all := ExtractAll(files, parse, digest);
    var dups := FindDuplicates(all, threshold, minLines);
    ProjectAnalysis(rootPath, |files|, |all|, dups, Recommendations(all, dups))
  }

  /** In the analysis, `duplicate_count` counts the functions whose body
      hash another long-enough function shares, and the reported savings
      are bounded by the grouped lines. */
  lemma AnalysisTotals(rootPath: string, rootIsFile: bool, found: seq<string>,
                       parse: string -> Option<Tree>, digest: string -> string,
                       minLines: int, threshold: real)
    requires minLines >= 0
    ensures var r := AnalyzeProject(rootPath, rootIsFile, found, parse, digest, minLines, threshold);
            var all := ExtractAll(PythonFiles(rootPath, rootIsFile, found), parse, digest);
            var cands := Candidates(all, minLines);
            && r.DuplicateCount() == Count(cands, Twinned(cands))
            && 0 <= r.PotentialSavings() <= Sum(r.duplicates, GroupLines)
  {
    var all := ExtractAll(PythonFiles(rootPath, rootIsFile, found), parse, digest);
    DuplicateCountIsTwins(all, threshold, minLines);
    SavingsBounded(all, threshold, minLines);
  }
}
