/** The provider layer of the AI suggestions: provider configuration from
    the environment, provider selection, the key guard in front of every
    API call, the success test of a response, and the parser that splits a
    model's reply into refactored code, explanation and change list.

    The API calls themselves are not modelled: what a call produced (a
    reply, a missing client package or a raised exception) is a parameter
    of `Generate`. Confidences are kept in tenths (0.8 is 8). */
module LlmProviders {
  import opened Wrappers
  import opened Text
  import opened Seqs

  // ---------------------------------------------------------------------
  // Providers and their configuration
  // ---------------------------------------------------------------------

  datatype Provider = OpenAI | Anthropic | Google | Ollama {
    /** The enum's string value. */
    function Value(): string {
      match this
      case OpenAI => "openai"
      case Anthropic => "anthropic"
      case Google => "google"
      case Ollama => "ollama"
    }

    /** The hosted providers need an API key; Ollama runs locally. */
    predicate NeedsKey() { !Ollama? }
  }

  /** `LLMConfig` without the sampling parameters (temperature, token
      limit, timeout), which only travel to the API. */
  datatype LlmConfig = LlmConfig(provider: Provider, model: string, apiKey: Option<string>,
                                 baseUrl: Option<string>)

  const OllamaDefaultUrl := "http://localhost:11434"

  /** The environment variable holding a hosted provider's key. */
  function KeyVariable(p: Provider): string
    requires p.NeedsKey()
  {
    match p
    case OpenAI => "OPENAI_API_KEY"
    case Anthropic => "ANTHROPIC_API_KEY"
    case Google => "GOOGLE_API_KEY"
  }

  function EnvGet(env: map<string, string>, name: string, default: string): string {
    if name in env then env[name] else default
  }

  function EnvLookup(env: map<string, string>, name: string): (r: Option<string>)
    ensures r.Some? <==> name in env
    ensures r.Some? ==> r.value == env[name]
  {
    if name in env then Some(env[name]) else None
  }

  /** `LLMConfig.from_env`: the key and model of the provider's variables,
      with the provider's default model; Ollama takes a base URL instead of
      a key. */
  function FromEnv(p: Provider, env: map<string, string>): (c: LlmConfig)
    ensures c.provider == p
    ensures p.NeedsKey() ==> c.apiKey == EnvLookup(env, KeyVariable(p)) && c.baseUrl.None?
    ensures p.Ollama? ==> c.apiKey.None? && c.baseUrl == Some(EnvGet(env, "OLLAMA_BASE_URL", OllamaDefaultUrl))
    ensures p.OpenAI? ==> c.model == EnvGet(env, "OPENAI_MODEL", "gpt-4o-mini")
    ensures p.Anthropic? ==> c.model == EnvGet(env, "ANTHROPIC_MODEL", "claude-3-haiku-20240307")
    ensures p.Google? ==> c.model == EnvGet(env, "GOOGLE_MODEL", "gemini-1.5-flash")
    ensures p.Ollama? ==> c.model == EnvGet(env, "OLLAMA_MODEL", "codellama")
  {
    match p
    case OpenAI =>
      LlmConfig(p, EnvGet(env, "OPENAI_MODEL", "gpt-4o-mini"), EnvLookup(env, "OPENAI_API_KEY"), None)
    case Anthropic =>
      LlmConfig(p, EnvGet(env, "ANTHROPIC_MODEL", "claude-3-haiku-20240307"),
                EnvLookup(env, "ANTHROPIC_API_KEY"), None)
    case Google =>
      LlmConfig(p, EnvGet(env, "GOOGLE_MODEL", "gemini-1.5-flash"), EnvLookup(env, "GOOGLE_API_KEY"), None)
    case Ollama =>
      LlmConfig(p, EnvGet(env, "OLLAMA_MODEL", "codellama"), None,
                Some(EnvGet(env, "OLLAMA_BASE_URL", OllamaDefaultUrl)))
  }

  /** The key-based `is_available` of the hosted providers: a key is present
      and non-empty. */
  predicate KeyAvailable(c: LlmConfig) {
    c.apiKey.Some? && |c.apiKey.value| > 0
  }

  /** `is_available`. Whether the local Ollama server answers is a
      parameter. */
  predicate IsAvailable(c: LlmConfig, ollamaAnswers: bool) {
    if c.provider.NeedsKey() then KeyAvailable(c) else ollamaAnswers
  }

  /** The environment holds a non-empty key for a hosted provider. */
  predicate HasKey(env: map<string, string>, p: Provider)
    requires p.NeedsKey()
  {
    KeyVariable(p) in env && |env[KeyVariable(p)]| > 0
  }

  /** The configuration `get_provider` uses when none is given: the first
      of OpenAI, Anthropic and Google whose key is set, else Ollama. */
  function AutoDetect(env: map<string, string>): LlmConfig {
    var openai := FromEnv(OpenAI, env);
    if KeyAvailable(openai) then openai
    else
      var anthropic := FromEnv(Anthropic, env);
      if KeyAvailable(anthropic) then anthropic
      else
        var google := FromEnv(Google, env);
        if KeyAvailable(google) then google
        else FromEnv(Ollama, env)
  }

  /** `get_provider`: the provider class follows the configuration's
      provider (every provider has one), so the configuration identifies the
      provider returned. */
  function GetProvider(config: Option<LlmConfig>, env: map<string, string>): (c: LlmConfig)
    ensures config.Some? ==> c == config.value
    ensures config.None? ==> c == FromEnv(c.provider, env)
    ensures config.None? ==> (c.provider.OpenAI? <==> HasKey(env, OpenAI))
    ensures config.None? ==> (c.provider.Anthropic? <==> !HasKey(env, OpenAI) && HasKey(env, Anthropic))
    ensures config.None? ==>
              (c.provider.Google? <==> !HasKey(env, OpenAI) && !HasKey(env, Anthropic) && HasKey(env, Google))
    ensures config.None? ==>
              (c.provider.Ollama? <==> !HasKey(env, OpenAI) && !HasKey(env, Anthropic) && !HasKey(env, Google))
  {
    match config
    case Some(given) => given
    case None => AutoDetect(env)
  }

  /** A hosted provider chosen by auto-detection always has its key. */
  lemma AutoDetectedIsAvailable(env: map<string, string>, ollamaAnswers: bool)
    ensures var c := GetProvider(None, env);
            c.provider.NeedsKey() ==> IsAvailable(c, ollamaAnswers)
  {
  }

  /** `check_provider_availability`: each provider's availability under
      its own environment configuration. */
  function CheckProviderAvailability(env: map<string, string>, ollamaAnswers: bool): (r: map<string, bool>)
    ensures r.Keys == {"openai", "anthropic", "google", "ollama"}
    ensures forall p: Provider :: p.Value() in r
    ensures forall p: Provider :: p.NeedsKey() ==> r[p.Value()] == HasKey(env, p)
    ensures r["ollama"] == ollamaAnswers
  {
    map[OpenAI.Value() := IsAvailable(GetProvider(Some(FromEnv(OpenAI, env)), env), ollamaAnswers),
        Anthropic.Value() := IsAvailable(GetProvider(Some(FromEnv(Anthropic, env)), env), ollamaAnswers),
        Google.Value() := IsAvailable(GetProvider(Some(FromEnv(Google, env)), env), ollamaAnswers),
        Ollama.Value() := IsAvailable(GetProvider(Some(FromEnv(Ollama, env)), env), ollamaAnswers)]
  }

  // ---------------------------------------------------------------------
  // Responses
  // ---------------------------------------------------------------------

  /** `LLMResponse` without the float cost estimate. */
  datatype LlmResponse = LlmResponse(content: string, model: string, provider: Provider, tokensUsed: nat,
                                     error: Option<string>) {
    /** `LLMResponse.success`. */
    predicate Succeeded() {
      error.None? && |content| > 0
    }
  }

  /** What the API call did: replied, failed to import its client package,
      or raised (`urlError` marks `urllib.error.URLError`). */
  datatype Outcome = Completed(text: string, tokens: nat) | ImportFailed | Raised(message: string, urlError: bool)

  function ProviderLabel(p: Provider): string {
    match p
    case OpenAI => "OpenAI"
    case Anthropic => "Anthropic"
    case Google => "Google"
    case Ollama => "Ollama"
  }

  function NoKeyMessage(p: Provider): string
    requires p.NeedsKey()
  {
    ProviderLabel(p) + " API key not configured. Set " + KeyVariable(p) + " environment variable."
  }

  function NotInstalledMessage(p: Provider): string
    requires p.NeedsKey()
  {
    match p
    case OpenAI => "OpenAI package not installed. Run: pip install openai"
    case Anthropic => "Anthropic package not installed. Run: pip install anthropic"
    case Google => "Google AI package not installed. Run: pip install google-generativeai"
  }

  /** Python's `base_url or default`. */
  function OllamaUrl(c: LlmConfig): string {
    if c.baseUrl.Some? && |c.baseUrl.value| > 0 then c.baseUrl.value else OllamaDefaultUrl
  }

  function ErrorResponse(c: LlmConfig, message: string): LlmResponse {
    LlmResponse("", c.model, c.provider, 0, Some(message))
  }

  /** `generate`. A hosted provider without a key answers with an error and
      never calls out; otherwise the outcome of the call becomes the
      response. Gemini replies report no token count. The `urllib` modules
      Ollama imports are part of Python's standard library, so its call
      cannot fail on an import. */
  function Generate(c: LlmConfig, outcome: Outcome): (r: LlmResponse)
    requires c.provider.Ollama? ==> !outcome.ImportFailed?
    ensures r.provider == c.provider && r.model == c.model
    ensures c.provider.NeedsKey() && !KeyAvailable(c) ==>
              r.content == "" && r.error == Some(NoKeyMessage(c.provider))
    ensures r.error.None? <==> (!c.provider.NeedsKey() || KeyAvailable(c)) && outcome.Completed?
    ensures r.Succeeded() <==>
              (!c.provider.NeedsKey() || KeyAvailable(c)) && outcome.Completed? && |outcome.text| > 0
    ensures r.error.None? ==> r.content == outcome.text
    ensures r.error.Some? ==> r.content == ""
  {
    if c.provider.NeedsKey() && !KeyAvailable(c) then ErrorResponse(c, NoKeyMessage(c.provider))
    else
      match outcome
      case Completed(text, tokens) =>
        LlmResponse(text, c.model, c.provider, if c.provider.Google? then 0 else tokens, None)
      case ImportFailed => ErrorResponse(c, NotInstalledMessage(c.provider))
      case Raised(message, urlError) =>
        match c.provider
        case OpenAI => ErrorResponse(c, "OpenAI API error: " + message)
        case Anthropic => ErrorResponse(c, "Anthropic API error: " + message)
        case Google => ErrorResponse(c, "Google API error: " + message)
        case Ollama =>
          if urlError then ErrorResponse(c, "Ollama not available at " + OllamaUrl(c) + ". Is Ollama running?")
          else ErrorResponse(c, "Ollama error: " + message)
  }

  /** Without a key the response does not depend on what the API would have
      done: no call is made. */
  lemma NoKeyNoCall(c: LlmConfig, o1: Outcome, o2: Outcome)
    requires c.provider.NeedsKey() && !KeyAvailable(c)
    ensures Generate(c, o1) == Generate(c, o2)
    ensures !Generate(c, o1).Succeeded()
  {
  }

  /** A successful response from a hosted provider implies the provider
      reported itself available. */
  lemma SucceededImpliesAvailable(c: LlmConfig, outcome: Outcome, ollamaAnswers: bool)
    requires c.provider.NeedsKey()
    requires Generate(c, outcome).Succeeded()
    ensures IsAvailable(c, ollamaAnswers)
  {
  }

  // ---------------------------------------------------------------------
  // Parsing a refactoring reply
  // ---------------------------------------------------------------------

  /** `RefactoringSuggestion`, with the confidence in tenths. */
  datatype Suggestion = Suggestion(originalCode: string, refactoredCode: string, explanation: string,
                                   confidence: nat, changesSummary: seq<string>)

  const Fence := "```python"
  const FenceEnd := "```"
  const HeaderMarker := "REFACTORED CODE"
  const ExplanationTag := "EXPLANATION:"
  const ChangesTag := "CHANGES:"

  /** The code block's text, stripped, without a first line carrying the
      `# REFACTORED CODE` comment, stripped again. */
  function CleanCode(segment: string): (r: string)
    ensures Strip(r) == r
  {
    var lines := Split(Strip(segment), "\n");
    var kept := if |lines| > 0 && Contains(lines[0], HeaderMarker) then lines[1..] else lines;
    StripIdempotent(Join(kept, "\n"));
    Strip(Join(kept, "\n"))
  }

  /** What `CleanCode` removes: nothing but surrounding whitespace when the
      first line has no marker; the whole first line otherwise. */
  lemma CleanCodeCases(segment: string)
    ensures var t := Strip(segment);
            !Contains(Before(t, "\n"), HeaderMarker) ==> CleanCode(segment) == t
    ensures var t := Strip(segment);
            Contains(Before(t, "\n"), HeaderMarker) && Contains(t, "\n") ==>
              CleanCode(segment) == Strip(After(t, "\n"))
    ensures var t := Strip(segment);
            Contains(Before(t, "\n"), HeaderMarker) && !Contains(t, "\n") ==> CleanCode(segment) == ""
  {
    var t := Strip(segment);
    SplitPieces(t, "\n");
    StripIdempotent(segment);
    if Contains(t, "\n") {
      JoinAfterFirst(t, "\n");
    } else {
      BeforeAbsent(t, "\n");
    }
  }

  /** The text after the first ```` ```python ````, up to the next
      ```` ```python ````, cut at its first ```` ``` ````. (Python's
      `len(parts) > 1` test always holds once the fence occurs.) */
  function FencedSegment(response: string): string
    requires Contains(response, Fence)
  {
    Split(Split(response, Fence)[1], FenceEnd)[0]
  }

  /** The refactored code of a reply: the cleaned fenced segment, or
      nothing without a fence. */
  function CodeOf(response: string): (r: string)
    ensures !Contains(response, Fence) ==> r == ""
    ensures Strip(r) == r
  {
    if Contains(response, Fence) then CleanCode(FencedSegment(response)) else ""
  }

  /** The fenced segment, stated with first occurrences: it starts right
      after the first opening fence and stops at the first closing fence
      before the next opening fence. */
  lemma FencedSegmentIsBlock(response: string)
    requires Contains(response, Fence)
    ensures FencedSegment(response) == Before(Before(After(response, Fence), Fence), FenceEnd)
  {
    SplitPieces(response, Fence);
    var rest := After(response, Fence);
    SplitPieces(rest, Fence);
    assert Split(response, Fence)[1] == Before(rest, Fence);
    SplitPieces(Before(rest, Fence), FenceEnd);
  }

  /** The explanation: the text after the first `EXPLANATION:` up to any
      further one, cut at its first `CHANGES:`, stripped. */
  function ExplanationOf(response: string): (r: string)
    ensures !Contains(response, ExplanationTag) ==> r == ""
    ensures Strip(r) == r
  {
    if Contains(response, ExplanationTag) then
      var parts := Split(response, ExplanationTag);
      if |parts| > 1 then
        var text := parts[1];
        var cut := if Contains(text, ChangesTag) then Split(text, ChangesTag)[0] else text;
        StripIdempotent(cut);
        Strip(cut)
      else ""
    else ""
  }

  lemma ExplanationIsTaggedSection(response: string)
    requires Contains(response, ExplanationTag)
    ensures ExplanationOf(response) == Strip(Before(Before(After(response, ExplanationTag), ExplanationTag), ChangesTag))
  {
    SplitPieces(response, ExplanationTag);
    SplitPieces(After(response, ExplanationTag), ExplanationTag);
    var text := Before(After(response, ExplanationTag), ExplanationTag);
    SplitPieces(text, ChangesTag);
    if !Contains(text, ChangesTag) {
      BeforeAbsent(text, ChangesTag);
    }
  }

  predicate IsBullet(line: string) {
    StartsWith(line, "-")
  }

  /** `line[1:].strip()`. */
  function Unbullet(line: string): string {
    Strip(PyDrop(line, 1))
  }

  /** The `for line in changes_text.split("\n")` loop: every stripped line
      that starts with a dash appends its remainder, stripped, to `acc`. */
  function CollectBullets(lines: seq<string>, acc: seq<string>): (r: seq<string>)
    ensures |acc| <= |r| <= |acc| + |lines|
    decreases |lines|
  {
    if |lines| == 0 then acc
    else CollectBullets(lines[1..], acc + FirstBullet(lines))
  }

  /** The comprehension
      `[l[1:].strip() for l in map(str.strip, lines) if l.startswith("-")]`. */
  function Bullets(lines: seq<string>): seq<string> {
    Map(Filter(Map(lines, Strip), IsBullet), Unbullet)
  }

  /** Every collected change is already stripped. */
  lemma BulletsAreStripped(lines: seq<string>)
    ensures forall i :: 0 <= i < |Bullets(lines)| ==> Strip(Bullets(lines)[i]) == Bullets(lines)[i]
  {
    var r := Bullets(lines);
    forall i | 0 <= i < |r| ensures Strip(r[i]) == r[i] {
      StripIdempotent(PyDrop(Filter(Map(lines, Strip), IsBullet)[i], 1));
    }
  }

  /** What the first line contributes. */
  function FirstBullet(lines: seq<string>): seq<string>
    requires |lines| > 0
  {
    if IsBullet(Strip(lines[0])) then [Unbullet(Strip(lines[0]))] else []
  }

  lemma BulletsCons(lines: seq<string>)
    requires |lines| > 0
    ensures Bullets(lines) == FirstBullet(lines) + Bullets(lines[1..])
  {
    MapFilterMapCons(lines, Strip, IsBullet, Unbullet);
  }

  /** The loop computes the comprehension. */
  lemma {:induction false} CollectBulletsIsComprehension(lines: seq<string>, acc: seq<string>)
    ensures CollectBullets(lines, acc) == acc + Bullets(lines)
    decreases |lines|
  {
    if |lines| == 0 {
      BulletsEmpty();
    } else {
      var first := FirstBullet(lines);
      var rest := Bullets(lines[1..]);
      assert CollectBullets(lines, acc) == CollectBullets(lines[1..], acc + first);
      CollectBulletsIsComprehension(lines[1..], acc + first);
      BulletsCons(lines);
      AppendAssoc(acc, first, rest);
    }
  }

  lemma BulletsEmpty()
    ensures Bullets([]) == []
  {
    assert Map([], Strip) == [];
  }

  /** The change list: the bullet lines of the text after the first
      `CHANGES:` up to any further one. */
  function ChangesOf(response: string): (r: seq<string>)
    ensures !Contains(response, ChangesTag) ==> r == []
    ensures forall i :: 0 <= i < |r| ==> Strip(r[i]) == r[i]
  {
    if Contains(response, ChangesTag) then
      var parts := Split(response, ChangesTag);
      if |parts| > 1 then
        var lines := Split(Strip(parts[1]), "\n");
        CollectBulletsIsComprehension(lines, []);
        CollectBullets(lines, [])
      else []
    else []
  }

  lemma ChangesAreBullets(response: string)
    requires Contains(response, ChangesTag)
    ensures ChangesOf(response) == Bullets(Split(Strip(Before(After(response, ChangesTag), ChangesTag)), "\n"))
  {
    SplitPieces(response, ChangesTag);
    SplitPieces(After(response, ChangesTag), ChangesTag);
    var lines := Split(Strip(Before(After(response, ChangesTag), ChangesTag)), "\n");
    CollectBulletsIsComprehension(lines, []);
  }

  /** `_parse_refactoring_response`. */
  function ParseRefactoringResponse(originalCode: string, response: string): (r: Suggestion)
    ensures r.originalCode == originalCode
    ensures r.refactoredCode == CodeOf(response) && r.explanation == ExplanationOf(response)
    ensures r.changesSummary == ChangesOf(response)
    ensures r.confidence == 8 <==> r.refactoredCode != "" && r.explanation != ""
    ensures r.confidence == 5 <==> r.refactoredCode == "" || r.explanation == ""
  {
    var code := CodeOf(response);
    var explanation := ExplanationOf(response);
    var confidence := if code != "" && explanation != "" then 8 else 5;
    Suggestion(originalCode, code, explanation, confidence, ChangesOf(response))
  }

  /** Python's `f"{x}"` of an optional string. */
  function OptionText(e: Option<string>): string {
    match e
    case None => "None"
    case Some(s) => s
  }

  /** `get_refactoring_suggestion`, given what the API call did: a failed
      response becomes an empty suggestion with confidence 0 whose
      explanation names the error, a successful one is parsed. */
  function GetRefactoringSuggestion(c: LlmConfig, code: string, outcome: Outcome): (r: Suggestion)
    requires c.provider.Ollama? ==> !outcome.ImportFailed?
    ensures r.originalCode == code
    ensures !Generate(c, outcome).Succeeded() ==>
              r.refactoredCode == "" && r.confidence == 0 && r.changesSummary == []
              && r.explanation == "Error: " + OptionText(Generate(c, outcome).error)
    ensures Generate(c, outcome).Succeeded() ==> r.confidence >= 5
    ensures Generate(c, outcome).Succeeded() ==> r == ParseRefactoringResponse(code, Generate(c, outcome).content)
    ensures r.refactoredCode != "" ==> outcome.Completed? && Contains(outcome.text, Fence)
  {
    var response := Generate(c, outcome);
    if !response.Succeeded() then Suggestion(code, "", "Error: " + OptionText(response.error), 0, [])
    else ParseRefactoringResponse(code, response.content)
  }

  /** A hosted provider without a key yields the key error as explanation
      and no code. */
  lemma NoKeySuggestion(c: LlmConfig, code: string, outcome: Outcome)
    requires c.provider.NeedsKey() && !KeyAvailable(c)
    ensures GetRefactoringSuggestion(c, code, outcome).refactoredCode == ""
    ensures GetRefactoringSuggestion(c, code, outcome).explanation == "Error: " + NoKeyMessage(c.provider)
  {
  }
}
