# auto-refactor-ai, modelled in Dafny

This project models the analysis core of auto-refactor-ai, a Python tool
that finds style problems in Python functions, detects structurally
duplicated functions across a project, plans refactorings, and asks a
language model for rewrites that it can splice back into the file.

The centre of the model is the structural clone detector of
`project_analyzer.py`:

- `ASTNormalizer` renames every `Name` and parameter to `var_k` in order of
  first occurrence. It renames every function definition to
  `normalized_func`, drops a leading docstring, and turns the value of every
  string constant into `str_const`. A `u` prefix (the constant's `kind`)
  is kept and shows in the dump.
- `ast.dump` plus MD5 is a deterministic serialiser (`Normalizer.Dump`)
  followed by a digest function that the caller passes in.
- The extractor builds one signature per definition that `ast.walk` meets.
- `find_duplicates` buckets signatures by body hash. Groups are sorted by
  size and each gets a suggested name and module.
- `generate_recommendations` and the totals of `analyze_project`.

Around it, the model covers these smaller cores:

- the three per-function style rules and their rule loop (`analyzer.py`);
- refactor-plan scoring, selection, roadmap and health label
  (`refactor_planner.py`);
- the fallback TOML line parser and configuration filtering (`config.py`);
- provider selection, the no-key guard and the reply parser
  (`llm_providers.py`);
- issue selection and the success/error counters (`ai_suggestions.py`);
- the line splice, backups, rollback and the decisions of the refactoring
  loop (`auto_refactor.py`).

The Python AST is the datatype `PyAst.Tree`. Its `Arguments` keeps the
seven fields of `ast.arguments` in Python's field order, because traversal
order fixes the `var_k` numbering. Python slices with negative or
out-of-range bounds are modelled exactly (`Seqs.PySlice`). Python's stable
`sorted` is modelled by `Seqs.SortDesc`, which keeps equal keys in input
order (`KeyClass`). A file is a map from path to contents. `readlines()`
is `Text.SplitLines`.

Scores and confidences are kept in tenths (1000/500/100 with ×12/10 and
×11/10; confidence 8 and 5). Python's float values of this form keep the
same order, so the model's comparisons agree with the program's.

Modules: `Wrappers`, `Text`, `Seqs`, `Paths` (helpers); `PyAst`,
`Normalizer`, `Numbering`, `Invariance`, `Shape`, `Pairs`, `Extractor`,
`Duplicates`, `Project` (project_analyzer.py); `StyleRules` (analyzer.py);
`Planner` (refactor_planner.py); `Settings` (config.py); `LlmProviders`
(llm_providers.py); `AiSuggestions` (ai_suggestions.py); `AutoRefactor`
(auto_refactor.py).

## Model

| member | source | states |
|---|---|---|
| PyAst.StripDocstring | auto_refactor_ai/project_analyzer.py:112-117 | a first statement that is an `Expr` of a string constant is dropped; any other body is kept whole |
| Normalizer.Token | auto_refactor_ai/project_analyzer.py:93-97 | a known name keeps its token and leaves the map unchanged; a new name gets a fresh `var_k` token and the map only grows |
| Normalizer.VarTokenInjective | auto_refactor_ai/project_analyzer.py:95-96 | `var_i` and `var_j` are equal exactly when `i == j` |
| Normalizer.NormTree | auto_refactor_ai/project_analyzer.py:99-137 | normalising a tree keeps every earlier assignment, extends the counter, and yields a canonical tree: identifiers are tokens, definitions are `normalized_func`, strings are `str_const` |
| Normalizer.NormSeq | auto_refactor_ai/project_analyzer.py:118 | normalising the children in order keeps their number and threads the map through them |
| Normalizer.NormArgs | auto_refactor_ai/project_analyzer.py:104-107 | parameters are renamed in field order and the result is canonical |
| Normalizer.Normalize | auto_refactor_ai/project_analyzer.py:140-156 | the normal form from a fresh map is canonical |
| Numbering.NormalFormNumbering | auto_refactor_ai/project_analyzer.py:93-107 | the normal form renames the i-th distinct identifier in visiting order to `var_i`, renames only identifiers of the tree, and the renaming is injective |
| Numbering.NormState | auto_refactor_ai/project_analyzer.py:93-107 | the map after normalising a tree is the map after assigning its identifiers in traversal order |
| Numbering.AssignNumbered | auto_refactor_ai/project_analyzer.py:93-97 | assigning names in order numbers their first occurrences consecutively |
| Numbering.NormIsApply | auto_refactor_ai/project_analyzer.py:99-107 | the normal form is the tree with the final map applied to every identifier |
| Invariance.NormVariant | auto_refactor_ai/project_analyzer.py:99-137 | two trees related by an injective renaming, string changes and definition-name changes normalise alike under corresponding maps |
| Invariance.CosmeticVariantsNormalizeAlike | auto_refactor_ai/project_analyzer.py:140-156 | cosmetic variants have the same normal form, positions aside |
| Normalizer.StringKindSurvives | auto_refactor_ai/project_analyzer.py:133-156 | after normalisation two string constants serialise alike exactly when both or neither carry the `u` prefix, whatever their contents |
| Invariance.DumpUnplaced | auto_refactor_ai/project_analyzer.py:156 | the serialisation does not depend on line positions |
| Invariance.CosmeticVariantsHashAlike | auto_refactor_ai/project_analyzer.py:159-169 | cosmetic variants hash alike, whatever the digest function |
| Invariance.DisguisedCopyHashesAlike | auto_refactor_ai/project_analyzer.py:93-169 | a copy with identifiers renamed injectively, string contents changed (a `u` prefix kept) and definitions renamed hashes like the original |
| Invariance.DefinitionCosmeticsHashAlike | auto_refactor_ai/project_analyzer.py:109-131 | two definitions differing only in name, position and leading docstring hash alike |
| Shape.NormKeepsShape | auto_refactor_ai/project_analyzer.py:99-137 | normalising changes only identifiers, definition names and strings, and drops docstrings; the erased shape is kept |
| Shape.SameNormalFormSameShape | auto_refactor_ai/project_analyzer.py:140-169 | equal normal forms imply equal operators, node kinds, statement structure and non-string constants |
| Shape.OperatorChangesNormalForm | auto_refactor_ai/project_analyzer.py:133-137 | `return a + b` and `return a * b` have different normal forms |
| Shape.NormOpDef | auto_refactor_ai/project_analyzer.py:99-137 | in `def f(a, b): return a <op> b` the parameters become `var_0` and `var_1`, the name becomes the placeholder, and the operator is kept |
| Shape.DumpNormOpDef | auto_refactor_ai/project_analyzer.py:140-156 | the serialised normal form of that function is a fixed text, the operator's tag, then a fixed text |
| Shape.DifferentOperatorsDumpApart | auto_refactor_ai/project_analyzer.py:140-156 | two such functions with different operators serialise differently |
| Shape.OperatorChangesHash | auto_refactor_ai/project_analyzer.py:159-169 | with a collision-free digest, `return a + b` and `return a * b` hash apart, so they are never grouped |
| Pairs.ValidatePairHashesAlike | test_files/test_duplicates_pair_a.py:8-16 | `validate_input` and `check_value` of the pair files hash alike |
| Pairs.TotalPairHashesAlike | test_files/test_duplicates_pair_a.py:19-27 | `calculate_total` and `compute_sum` hash alike |
| Pairs.ProcessPairHashesAlike | test_files/test_duplicates_pair_a.py:30-40 | `process_data` and `filter_items` hash alike |
| Pairs.TotalRenamingInjective | test_files/test_duplicates_pair_b.py:19-27 | the renaming that takes one function's identifiers to the other's is injective |
| Extractor.WalkCountsDefs | auto_refactor_ai/project_analyzer.py:186-187 | the breadth-first walk meets every definition of the tree exactly once, nested ones included |
| Extractor.Definitions | auto_refactor_ai/project_analyzer.py:186-187 | the definitions met by the walk, one per definition of the tree, the root first when it is one |
| Extractor.SignatureOf | auto_refactor_ai/project_analyzer.py:188-208 | parameters are exactly the names of the positional `args`, in order; parameter count is their number; line count is `end - start + 1`; body hash is the digest of the normalised body; file, name and lines are copied |
| Extractor.ExtractFunctions | auto_refactor_ai/project_analyzer.py:172-218 | a read or parse failure gives no signatures; otherwise one signature per definition, in walk order, each naming the file (hashing that raises mid-walk is under Left out) |
| Extractor.Signature.Location | auto_refactor_ai/project_analyzer.py:30-31 | starts with `file:`, ends with `-end`, and is exactly as long as `file`, `:`, the start line, `-` and the end line together |
| Extractor.LocationReadBack | auto_refactor_ai/project_analyzer.py:30-31 | a location reads back (`Extractor.ParseLocation`) to its file, start line and end line, so it is `file:start-end` |
| Extractor.Signature.QualifiedName | auto_refactor_ai/project_analyzer.py:34-35 | starts with the file's stem, ends with `.` and the name, and has exactly their combined length, so it is the stem, a dot and the name |
| Duplicates.DuplicateGroup.Files | auto_refactor_ai/project_analyzer.py:51-52 | exactly the files of the members |
| Duplicates.DuplicateGroup.PotentialSavings | auto_refactor_ai/project_analyzer.py:59-64 | 0 for at most one member; otherwise between 0 and the total line count |
| Duplicates.UniformSavings | auto_refactor_ai/project_analyzer.py:59-64 | k copies of an n-line function save (k - 1) * n lines |
| Duplicates.WordsFacts | auto_refactor_ai/project_analyzer.py:292-305 | the words of a name, joined, are the lower-cased name without underscores; no word is empty or holds `_` or an upper-case letter |
| Duplicates.CommonWords | auto_refactor_ai/project_analyzer.py:285-317 | no names give no words; otherwise exactly the words shared by all names, each once, longest first |
| Duplicates.SuggestNameSpec | auto_refactor_ai/project_analyzer.py:264-266 | the suggested name is a longest common word, or the first member's name when there is none |
| Duplicates.SuggestModuleSpec | auto_refactor_ai/project_analyzer.py:320-329 | `<d>/utils.py` exactly when every member's directory has the same last component `d`, else `shared.py` beside the first member |
| Duplicates.GroupsForCovers | auto_refactor_ai/project_analyzer.py:254-258 | every listed hash with two or more candidates gets a group |
| Duplicates.FindDuplicates | auto_refactor_ai/project_analyzer.py:237-282 | groups sorted by size descending, a permutation of the hash-ordered groups, with groups of equal size in first-seen hash order |
| Duplicates.FindDuplicatesGroups | auto_refactor_ai/project_analyzer.py:250-278 | every group is the full bucket of one hash among the long-enough functions, with two or more members and similarity 1.0; no group repeats |
| Duplicates.FindDuplicatesCovers | auto_refactor_ai/project_analyzer.py:250-258 | every hash shared by two or more long-enough functions has its group |
| Duplicates.AtMostOneGroup | auto_refactor_ai/project_analyzer.py:250-258 | a function lands in at most one group |
| Duplicates.GroupMembersAlike | auto_refactor_ai/project_analyzer.py:250-258 | members of a group share the hash, are long enough and come from the input |
| Project.DuplicateCountIsTwins | auto_refactor_ai/project_analyzer.py:76-78 | `duplicate_count` is the number of long-enough functions whose hash another one shares |
| Project.SavingsBounded | auto_refactor_ai/project_analyzer.py:80-82 | with a non-negative minimum the summed savings are between 0 and the grouped lines |
| Project.Recommendations | auto_refactor_ai/project_analyzer.py:332-367 | the first line is the savings line exactly when there are duplicate groups |
| Project.RecommendationsLines | auto_refactor_ai/project_analyzer.py:355-365 | after the optional savings line comes one line per repeated name, in order, with its occurrence count |
| Project.RepeatedNamesSpec | auto_refactor_ai/project_analyzer.py:351-361 | the repeated names are exactly those occurring three or more times outside `__init__`, `main`, `setup`, each once, in first-seen order |
| Project.OneFileRepeats | auto_refactor_ai/project_analyzer.py:356-361 | three functions of one name in one file are reported: the rule counts occurrences, not files |
| Project.PythonFiles | auto_refactor_ai/project_analyzer.py:388-392 | a `.py` file alone, another file gives nothing, a directory gives the `.py` paths found below it |
| Project.AnalyzeProject | auto_refactor_ai/project_analyzer.py:370-416 | files analysed is the number of Python files; functions found is the sum of each file's definitions; recommendations start with the savings line exactly when there are groups |
| Project.AnalysisTotals | auto_refactor_ai/project_analyzer.py:76-82 | in an analysis, `duplicate_count` counts functions with a twin and savings are bounded by the grouped lines |
| StyleRules.SeverityRoundTrip | auto_refactor_ai/analyzer.py:7-12 | severity values and severities are in one-to-one correspondence |
| StyleRules.TierThresholds | auto_refactor_ai/analyzer.py:82-87 | CRITICAL above twice the limit, WARN above 1.5 times it on rationals, INFO otherwise |
| StyleRules.TierMonotone | auto_refactor_ai/analyzer.py:82-87 | a larger metric never gets a lower severity |
| StyleRules.TierExamples | auto_refactor_ai/analyzer.py:82-87 | with a limit of 30 lines, 35 is INFO, 50 is WARN and 70 is CRITICAL |
| StyleRules.Issue.ToDict | auto_refactor_ai/analyzer.py:28-39 | severity becomes its string, missing details become `{}`, other fields are copied |
| StyleRules.ToDictRoundTrip | auto_refactor_ai/analyzer.py:28-39 | reading the dictionary back gives the issue, when details are not an empty map |
| StyleRules.CheckFunctionLength | auto_refactor_ai/analyzer.py:74-104 | no issue exactly when `end - start + 1` is within the limit; otherwise the tiered severity, the rule name and the details `length` and `max_length` |
| StyleRules.CheckTooManyParameters | auto_refactor_ai/analyzer.py:107-144 | no issue exactly when args + kw-only + `*args` + `**kwargs` is within the limit; otherwise the tiered severity and the details |
| StyleRules.ParamCountParts | auto_refactor_ai/analyzer.py:113-118 | `*args` and `**kwargs` count one each and positional-only parameters are not counted |
| StyleRules.Visit | auto_refactor_ai/analyzer.py:42-71 | the visitor restores the current depth and records the deepest chain of `If`/`For`/`While`/`With` below the node |
| StyleRules.NestingDepth | auto_refactor_ai/analyzer.py:153-155 | the reported depth is the deepest chain below the definition |
| StyleRules.CheckDeepNesting | auto_refactor_ai/analyzer.py:147-181 | no issue exactly when the depth is within the limit; otherwise the tiered severity and the details |
| StyleRules.DepthOfBlock | auto_refactor_ai/analyzer.py:49-71 | a counted statement adds one level to its deepest part; another statement adds none |
| StyleRules.NestingExamples | auto_refactor_ai/analyzer.py:49-71 | `if` in `while` in `if` is three levels, and a wrapping `try` adds none |
| StyleRules.AnalyzeFile | auto_refactor_ai/analyzer.py:184-232 | a file that cannot be read or parsed has no issues; every issue names the file |
| StyleRules.IssuesOfReports | auto_refactor_ai/analyzer.py:215-230 | every issue of every plain definition among the walked nodes is in the rule loop's result |
| StyleRules.AnalyzeFileReports | auto_refactor_ai/analyzer.py:214-230 | for every plain definition of a parsed file, each issue that the length, parameter and nesting checks find is among the file's issues |
| StyleRules.AnalyzeFileBound | auto_refactor_ai/analyzer.py:215-230 | issues name plain definitions of the file, at most three per definition |
| StyleRules.NoPlainDefsNoIssues | auto_refactor_ai/analyzer.py:216 | a file with only `async def`s has no issues |
| Planner.CalculateMetrics | auto_refactor_ai/refactor_planner.py:94-118 | total issues is the issue count; no files exactly when no issues; duplicate count is the group count or 0 |
| Planner.SeverityCountsAddUp | auto_refactor_ai/refactor_planner.py:99-101 | the three severity counters add up to the issue count |
| Planner.FunctionsBetweenFilesAndIssues | auto_refactor_ai/refactor_planner.py:96-97 | with colon-free names, total functions is the number of distinct (file, function) pairs, between the file count and the issue count |
| Planner.KeyDeterminesPair | auto_refactor_ai/refactor_planner.py:97 | with colon-free names the `file:function` key determines the pair |
| Planner.ScoreTable | auto_refactor_ai/refactor_planner.py:128-145 | the nine possible scores: severity base 100/50/10, ×1.2 for nesting, ×1.1 for parameters |
| Planner.SeverityDominatesScore | auto_refactor_ai/refactor_planner.py:128-145 | a more severe issue always outranks a less severe one |
| Planner.Effort | auto_refactor_ai/refactor_planner.py:125-157 | Low exactly for quick wins; otherwise High for nesting or a critical non-parameter issue, Medium for parameters |
| Planner.Impact | auto_refactor_ai/refactor_planner.py:126-135 | High, Medium or Low by severity alone |
| Planner.MakeItem | auto_refactor_ai/refactor_planner.py:159-169 | the item copies file, function and message and carries the issue's score, effort and impact |
| Planner.PrioritizeIssues | auto_refactor_ai/refactor_planner.py:120-171 | one item per issue, in issue order |
| Planner.LtOrder | auto_refactor_ai/refactor_planner.py:41-42 | `__lt__` is a strict order meaning "higher score"; a sequence with no later item less than an earlier one is sorted by descending score |
| Planner.Hotspots | auto_refactor_ai/refactor_planner.py:78 | at most five items from the input, sorted by descending score |
| Planner.HotspotsAreTop | auto_refactor_ai/refactor_planner.py:78 | the hotspots are a prefix of the stable sort: none left out scores higher |
| Planner.QuickWins | auto_refactor_ai/refactor_planner.py:173-178 | the Low-effort items, at most five, by descending score |
| Planner.QuickWinsAreTop | auto_refactor_ai/refactor_planner.py:173-178 | the quick wins are a prefix of the stably sorted Low-effort items |
| Planner.Roadmap | auto_refactor_ai/refactor_planner.py:194-215 | phase 1 exactly with duplicate groups, phase 2 exactly with quick wins, phase 3 exactly with hotspots, phase 4 always and last, in increasing order |
| Planner.HealthOf | auto_refactor_ai/refactor_planner.py:183-187 | Good with no criticals, Needs Attention for 1 to 10, Critical above 10 |
| Planner.HealthMonotone | auto_refactor_ai/refactor_planner.py:183-187 | more critical issues never give a better verdict |
| Planner.Summary | auto_refactor_ai/refactor_planner.py:180-192 | the summary is `Analyzed N files. ` with the file count, then `Found M issues. ` with the issue count, then `Codebase Health: <label>.` |
| Planner.GeneratePlan | auto_refactor_ai/refactor_planner.py:65-92 | the plan's metrics; its hotspots and quick wins are those picked from the prioritised issues; its summary is the metrics' summary and its roadmap the one built from those hotspots and quick wins; at most five of each, and one to four roadmap lines |
| Planner.InfoOnlyAllQuickWins | auto_refactor_ai/refactor_planner.py:151-157 | with only INFO issues every item is low-effort |
| Settings.ParseValue | auto_refactor_ai/config.py:106-123 | booleans case-insensitively, then bracketed lists, then text between matching double or single quotes, then decimal integers, then float literals kept as text, else the text itself |
| Settings.ParseValueOfRender | auto_refactor_ai/config.py:106-123 | booleans, integers and double-quoted strings read back as written |
| Settings.ParseValueQuirks | auto_refactor_ai/config.py:107-115 | a lone `"` is the empty string and `TRUE` is a boolean |
| Settings.ParseValueSingleQuoted | auto_refactor_ai/config.py:114-115 | text between single quotes is a string without them |
| Settings.ParseValueLeadingZeros | auto_refactor_ai/config.py:116-118 | `007` is the integer 7, as Python's `int` reads it |
| Settings.ListItems | auto_refactor_ai/config.py:111 | list items are no more than the comma-separated parts |
| Settings.EnterSection | auto_refactor_ai/config.py:88-97 | a header walks from the root, creating missing tables and reusing existing ones; it fails exactly when it passes through a non-table |
| Settings.SetAt | auto_refactor_ai/config.py:125 | a key lands in the current section, which must be a table; the section's other keys are kept |
| Settings.Classify | auto_refactor_ai/config.py:81-125 | blank and `#` lines are skipped, bracketed lines are headers, a line with `=` splits at its first `=` into a stripped key and a typed value, other lines are ignored |
| Settings.Apply | auto_refactor_ai/config.py:80-125 | the effect of one line: skipped and ignored lines change nothing, headers select a section, keys land in it |
| Settings.SkippedLinesIrrelevant | auto_refactor_ai/config.py:84-85 | blank, comment and ignored lines can be dropped without changing the parse |
| Settings.ApplyAllConcat | auto_refactor_ai/config.py:80-125 | parsing a file is parsing its first part and then the rest |
| Settings.LaterKeyWins | auto_refactor_ai/config.py:125 | of two settings of one key in one section, the later wins |
| Settings.SectionStaysTable | auto_refactor_ai/config.py:125 | assigning into a section leaves it a table |
| Settings.PyProjectSection | auto_refactor_ai/config.py:58-63 | only the `tool.auto-refactor-ai` table is returned, or `{}` |
| Settings.LoadToml | auto_refactor_ai/config.py:41-68 | `None` when the file cannot be read or parsed, the own table of `pyproject.toml`, the whole document otherwise |
| Settings.PyProjectSettingLands | auto_refactor_ai/config.py:57-64 | a `[tool.auto-refactor-ai]` header and one setting load as exactly that setting |
| Settings.PostInit | auto_refactor_ai/config.py:25-27 | no rule list becomes the three default rules; an explicit value is kept |
| Settings.DefaultConfig | auto_refactor_ai/config.py:20-27 | limits 30, 5 and 3 and all three rules |
| Settings.FromDict | auto_refactor_ai/config.py:33-38 | each of the four fields is read with its default |
| Settings.FromDictIgnoresUnknownKeys | auto_refactor_ai/config.py:36-37 | keys outside the four field names make no difference, and `{}` gives the defaults |
| Settings.LoadConfig | auto_refactor_ai/config.py:196-232 | no path gives the defaults; an unknown suffix gives the defaults; `.toml` and `.yaml`/`.yml` use their loaders with the defaults on failure |
| LlmProviders.FromEnv | auto_refactor_ai/llm_providers.py:37-61 | each provider reads its own key and model variables, with the default models `gpt-4o-mini`, `claude-3-haiku-20240307`, `gemini-1.5-flash` and `codellama`; Ollama takes a base URL, default `http://localhost:11434`, instead of a key |
| LlmProviders.GetProvider | auto_refactor_ai/llm_providers.py:509-536 | a given configuration is used; otherwise the first of OpenAI, Anthropic and Google with a key, else Ollama |
| LlmProviders.AutoDetectedIsAvailable | auto_refactor_ai/llm_providers.py:518-526 | a hosted provider chosen by auto-detection is always available |
| LlmProviders.CheckProviderAvailability | auto_refactor_ai/llm_providers.py:539-548 | one entry per provider: a hosted provider is available exactly when its key is set |
| LlmProviders.Generate | auto_refactor_ai/llm_providers.py:237-245 | without a key a hosted provider answers with an error and empty content; a response succeeds exactly when the call completed with non-empty text |
| LlmProviders.NoKeyNoCall | auto_refactor_ai/llm_providers.py:239-245 | without a key the response does not depend on the call and never succeeds |
| LlmProviders.SucceededImpliesAvailable | auto_refactor_ai/llm_providers.py:86-88 | a successful response from a hosted provider implies it is available |
| LlmProviders.CleanCodeCases | auto_refactor_ai/llm_providers.py:194-197 | the code block is stripped, and its first line is dropped only when it carries `REFACTORED CODE` |
| LlmProviders.CodeOf | auto_refactor_ai/llm_providers.py:188-197 | no fence gives no code; the code is stripped |
| LlmProviders.FencedSegmentIsBlock | auto_refactor_ai/llm_providers.py:189-192 | the code segment runs from the first opening fence to the next closing fence |
| LlmProviders.ExplanationIsTaggedSection | auto_refactor_ai/llm_providers.py:199-206 | the explanation is the text after the first `EXPLANATION:` up to any further one, cut at `CHANGES:` and stripped |
| LlmProviders.CollectBulletsIsComprehension | auto_refactor_ai/llm_providers.py:213-216 | the loop collects the dash lines, dash removed and re-stripped, in order |
| LlmProviders.BulletsAreStripped | auto_refactor_ai/llm_providers.py:213-216 | every collected change has no surrounding whitespace |
| LlmProviders.ChangesAreBullets | auto_refactor_ai/llm_providers.py:208-216 | the changes are the bullet lines after the first `CHANGES:` up to any further one |
| LlmProviders.ParseRefactoringResponse | auto_refactor_ai/llm_providers.py:180-227 | the original code is passed through; confidence is 0.8 exactly when code and explanation are both non-empty, else 0.5 |
| LlmProviders.GetRefactoringSuggestion | auto_refactor_ai/llm_providers.py:107-124 | a failed response gives no code, confidence 0 and the error as explanation; a completed reply gives exactly the parse of its text; code only comes from a reply with a fence |
| LlmProviders.NoKeySuggestion | auto_refactor_ai/llm_providers.py:116-122 | without a key the suggestion has no code and explains the missing key |
| AiSuggestions.AnalysisSummary.SuccessCount | auto_refactor_ai/ai_suggestions.py:42-44 | all results count exactly when every result carries code |
| AiSuggestions.AnalysisSummary.ErrorCount | auto_refactor_ai/ai_suggestions.py:46-48 | the results without code; with the successes it makes up all results, and the error messages are not counted |
| AiSuggestions.ExtractFunctionSource | auto_refactor_ai/ai_suggestions.py:51-70 | a read failure gives the error text; an in-range slice gives its lines joined; an empty or out-of-range slice gives `""` |
| AiSuggestions.ExtractedLinesRoundTrip | auto_refactor_ai/ai_suggestions.py:64-68 | the extracted text splits back into exactly the function's lines |
| AiSuggestions.SelectIssues | auto_refactor_ai/ai_suggestions.py:104-117 | no INFO issue when skipping; issues from the input; CRITICAL, then WARN, then INFO; at most `max_issues` |
| AiSuggestions.SelectIssuesKeepsAll | auto_refactor_ai/ai_suggestions.py:104-117 | with a large enough limit nothing else is dropped, and equal severities keep input order |
| AiSuggestions.SelectIssuesTakesMostSevere | auto_refactor_ai/ai_suggestions.py:109-117 | the selection is a prefix of the stable sort: no issue left out is more severe |
| AiSuggestions.ResultFor | auto_refactor_ai/ai_suggestions.py:121-140 | a result holds its issue, the extracted source and a suggestion for that source |
| AiSuggestions.ProcessIssues | auto_refactor_ai/ai_suggestions.py:119-145 | each issue adds exactly one result or one error; there are as many results as answered requests |
| AiSuggestions.ProcessIssuesResults | auto_refactor_ai/ai_suggestions.py:119-143 | every result is the one built for an input issue whose request ran, from its extracted code and reply |
| AiSuggestions.ProcessIssuesInOrder | auto_refactor_ai/ai_suggestions.py:119-145 | the results are those of the answered issues, in order |
| AiSuggestions.GetAiSuggestions | auto_refactor_ai/ai_suggestions.py:73-147 | provider and model from the chosen configuration; unavailable gives no results and one error; otherwise the results belong to exactly the selected issues that got an answer, in their order, and results plus errors match the selected issues |
| AiSuggestions.AllFencedRepliesSucceed | auto_refactor_ai/ai_suggestions.py:42-48 | when every reply carries fenced code, there are no errors and every selected issue counts as a success |
| AutoRefactor.CodeLines | auto_refactor_ai/auto_refactor.py:160-164 | empty code inserts no lines; every inserted line ends with a newline, one being added to the last if missing |
| AutoRefactor.SpliceKeepsOutside | auto_refactor_ai/auto_refactor.py:167 | the new lines are the lines before `start`, the code's lines, then the lines after `end` |
| AutoRefactor.SpliceEmptyCode | auto_refactor_ai/auto_refactor.py:160-167 | empty code just removes the function's lines |
| AutoRefactor.ApplyRefactoring | auto_refactor_ai/auto_refactor.py:127-176 | a missing file or a start beyond the file fails and writes nothing; otherwise only that file changes, to the spliced lines |
| AutoRefactor.ApplyIgnoresOriginal | auto_refactor_ai/auto_refactor.py:128-157 | the result does not depend on the original function's text |
| AutoRefactor.ApplyOwnSourceIsIdentity | auto_refactor_ai/auto_refactor.py:146-171 | writing back a function's own extracted source leaves the file unchanged |
| AutoRefactor.CreateBackup | auto_refactor_ai/auto_refactor.py:94-124 | a copy of the file under a timestamped name; a missing file fails |
| AutoRefactor.RollbackFile | auto_refactor_ai/auto_refactor.py:179-197 | a missing backup fails with `Backup file not found`; otherwise the file gets the backup's contents and nothing else changes |
| AutoRefactor.BackupThenRollback | auto_refactor_ai/auto_refactor.py:179-197 | rolling back to a fresh backup restores the file |
| AutoRefactor.RefactorSummary.AppliedCount | auto_refactor_ai/auto_refactor.py:47-49 | the applied results, never more than all results |
| AutoRefactor.CountersBounded | auto_refactor_ai/auto_refactor.py:43-57 | when every result is applied, skipped or errored at most once, the counters add up to at most the total |
| AutoRefactor.ProcessSingle | auto_refactor_ai/auto_refactor.py:273-338 | no code gives an error and no diff; a dry run writes nothing; applied exactly when there is no error, no dry run and code; an applied result leaves the files as the splice into the backed-up state; with backups on and the file present, the backup holds the file's old contents; a failure changes no file but the backup |
| AutoRefactor.BackupStep | auto_refactor_ai/auto_refactor.py:312-318 | without a backup directory the files are untouched; with one and the file present, a copy of the file lands at the timestamped backup path |
| AutoRefactor.WriteStep | auto_refactor_ai/auto_refactor.py:312-338 | a failed backup changes nothing; an applied result is the splice into the backed-up files; with backups on and the file present, the backup path holds the old contents; otherwise only the file and the backup change |
| AutoRefactor.ApplyOrRestore | auto_refactor_ai/auto_refactor.py:320-336 | applied exactly when the splice succeeds, and then the files are its result; on failure the file is restored from the backup when there is one, and no other file changes |
| AutoRefactor.AfterBackup | auto_refactor_ai/auto_refactor.py:320-338 | after the backup step, an applied result is the splice into the backed-up files; otherwise no file but the file itself and the backup changes, and the backup keeps the old contents |
| AutoRefactor.RefactorLoopLength | auto_refactor_ai/auto_refactor.py:392-444 | without a prompt, every suggestion gives one result |
| AutoRefactor.RefactorLoopResults | auto_refactor_ai/auto_refactor.py:392-444 | each result belongs to its suggestion and is applied, skipped or errored consistently |
| AutoRefactor.RefactorLoopDryRun | auto_refactor_ai/auto_refactor.py:414-418 | a dry run writes nothing |
| AutoRefactor.AutoRefactor | auto_refactor_ai/auto_refactor.py:365-444 | backup directory set exactly when backups are on and it is not a dry run; empty input gives an empty summary; a dry run applies nothing; counters within the total |
| Seqs.PySlice | auto_refactor_ai/ai_suggestions.py:67 | Python slicing, negative and out-of-range bounds included |
| Seqs.SortDesc | auto_refactor_ai/refactor_planner.py:78 | a stable descending sort: a permutation, sorted, with equal keys in input order |
| Text.SplitLines | auto_refactor_ai/ai_suggestions.py:64 | `readlines()`: the lines join back to the text, and every line but the last ends with a newline |
| Text.SplitLinesOfConcat | auto_refactor_ai/auto_refactor.py:146-171 | joining lines and reading them back gives the same lines |
| Text.ParseIntOfIntToString | auto_refactor_ai/config.py:117-118 | `int()` reads back a rendered integer |
| Paths.StemAndSuffix | auto_refactor_ai/project_analyzer.py:34-35 | a file's stem and suffix make up its name |

## Left out

- File and directory I/O (`open`, `rglob`, `shutil.copy2`, `mkdir`): file contents are inputs and the filesystem is a map from path to contents. A write that fails is not modelled.
- `ast.parse`, `ast.walk` and `hashlib.md5`: the parse result is an input, the walk is a breadth-first queue over child nodes in field order, and the digest is a function parameter. `Normalizer.Dump` is a deterministic serialiser, not `ast.dump`'s exact format.
- Shape.OperatorChangesHash: assumes the digest has no collisions. MD5 collisions are not modelled, so for MD5 the lemma only shows that the two serialisations differ.
- The network calls of each provider's `generate` and the Ollama reachability probe: the outcome of a call and whether Ollama answers are inputs.
- `_estimate_cost`, `average_complexity_score`, temperature and cost fields: floating point with no effect on the modelled decisions.
- `generate_diff` (difflib) and the clock in `create_backup`: the diff is a function parameter and the timestamp a string parameter.
- All rendering and printing (`format_*`, `print_*`, the summary lines printed in the loop).
- `auto_refactor_ai/explanations.py`, `auto_refactor_ai/lsp_server.py`, `auto_refactor_ai/git_utils.py`, `auto_refactor_ai/cli.py`, `scripts/verify_install.py`: prose tables, an editor server, subprocess and argument glue, none of them part of the analysis.
- `_get_llm_advice` and `_build_llm_context`: model plumbing; `Planner.GeneratePlan` is the plan without advice.
- `prompt_for_approval`: the user's answers are an input sequence of approve, decline or quit.
- `load_yaml_config` and `find_config_file`: the YAML loader's result and the file the upward search finds are inputs of `Settings.LoadConfig`.
- `tomllib`: only the fallback line parser is modelled; on Python 3.11 and later the standard parser is used instead.
- Python's lenient builtins: `int()` and `float()` accepting underscores and surrounding signs, `str.strip` on non-ASCII whitespace, `splitlines` on separators other than `\n`, and Unicode `isupper`/`lower`. The model uses ASCII and `\n` only.
- Duplicates.CommonWords: words of equal length come in order of appearance in the first name, where the source leaves their order to set iteration; `Duplicates.SuggestNameSpec` states only what holds for every order (a longest common word).
- Settings.ListItems: states only that there are at most as many items as parts; the items themselves are given by its definition.
- AiSuggestions.GetAiSuggestions: exceptions raised while processing one issue are an input (`Attempt`), so which issues fail is not derived.
- AutoRefactor.RefactorLoop: states only that there are at most as many results as suggestions; the rest is in the lemmas about it.
- AutoRefactor.ProcessSingle: the backup directory is created on demand and never fails to be created.
- StyleRules.AnalyzeFile: the `None` parse result stands for a read failure or a `SyntaxError`, the two failures the source catches. Other exceptions propagate out of `analyze_file` in the source, and the model does not have them: a `ValueError` from `ast.parse` on NUL bytes before Python 3.12, a `RecursionError`, or an error inside the rules.
- Extractor.ExtractFunctions: in the source one `try` wraps the whole walk, so an exception while hashing a definition returns the signatures collected so far, a prefix of the walk. An example is a `RecursionError` from `copy.deepcopy` or the normaliser on a very deeply nested function. The model's hashing cannot fail, so it always returns one signature per definition.
- Project.PythonFiles: file names are used as given. The source's `str(Path(...))` normalisation is not modelled: `./a.py` becomes `a.py` and `a//b.py` becomes `a/b.py` there, so the names in signatures and issues may differ.
- StyleRules.AnalyzeFile: a missing `end_lineno` (only possible for hand-built trees) is not modelled; parsed trees always carry it.
