/** The LLM providers of src/test_generator.py: the generator configuration, how
    `CppTestGenerator._create_llm_provider` picks a provider by name, the checks the
    provider constructors make, and the deterministic parts of each provider's
    `generate_response` (how the prompt text is assembled and how the reply is taken
    out of the response body). The HTTP exchange itself is not modelled: a provider is
    seen by the rest of the model as a function from (prompt, system prompt) to a `Reply`. */
module Providers {
  import opened Strings
  import opened Outcomes

  /** `GeneratorConfig`, without the temperature and token limit it only passes through. */
  datatype GeneratorConfig = GeneratorConfig(
    projectPath: string,
    outputDir: string,
    modelProvider: string,
    modelName: string,
    apiKey: Option<string>,
    apiUrl: Option<string>)

  /** What `_create_llm_provider` builds: one of the three HTTP providers, or no provider
      at all for "mock" (the demo script installs its own afterwards). */
  datatype Provider =
    | Ollama(apiUrl: string)
    | GitHubModels(endpoint: string)
    | Gemini(apiUrl: string)
    | NoProvider

  /** The outcome of one `generate_response` call as its caller sees it: a text, or an
      exception (network failure, missing provider, malformed response). */
  datatype Reply = Answer(text: string) | Raised

  const DefaultOllamaUrl := "http://localhost:11434/api/generate"
  const GitHubEndpoint := "https://models.github.ai"
  const GeminiUrl := "https://generativelanguage.googleapis.com/v1beta/models/gemini-1.5-flash-latest:generateContent"
  const GeminiFormatError := "Error: Unexpected API response format"

  /** The provider names `_create_llm_provider` accepts, after lower-casing. */
  const SupportedNames: set<string> := {"ollama", "github", "mock", "gemini"}

  /** Python truthiness of an optional string: present and not empty. */
  predicate Truthy(s: Option<string>) {
    s.Some? && s.value != ""
  }

  /** The name a provider is selected by; inverse of the dispatch in `CreateProvider`. */
  function ProviderName(p: Provider): string {
    match p
    case Ollama(_) => "ollama"
    case GitHubModels(_) => "github"
    case Gemini(_) => "gemini"
    case NoProvider => "mock"
  }

  const AzureSdkMissing := "azure-ai-inference package is required for GitHub Models"

  /** `_create_llm_provider` together with the provider constructors it calls: the name is
      matched case-insensitively; "github" and "gemini" need an API key; "github" also needs
      the azure-ai-inference package (`azureSdk`), whose import the GitHub constructor tries;
      any other name is a ValueError naming the provider as the user wrote it. */
  function CreateProvider(c: GeneratorConfig, azureSdk: bool): (r: Result<Provider, string>)
    ensures r.Success? <==>
      Lower(c.modelProvider) in SupportedNames
      && (Lower(c.modelProvider) in {"github", "gemini"} ==> Truthy(c.apiKey))
      && (Lower(c.modelProvider) == "github" ==> azureSdk)
    ensures r.Success? ==> ProviderName(r.value) == Lower(c.modelProvider)
    ensures r.Success? && r.value.Ollama? ==>
      r.value.apiUrl == if Truthy(c.apiUrl) then c.apiUrl.value else DefaultOllamaUrl
    ensures Lower(c.modelProvider) !in SupportedNames ==>
      r == Failure("Unsupported model provider: " + c.modelProvider)
    ensures Lower(c.modelProvider) == "github" && !Truthy(c.apiKey) ==>
      r == Failure("GitHub Models requires an API key")
    ensures Lower(c.modelProvider) == "github" && Truthy(c.apiKey) && !azureSdk ==>
      r == Failure(AzureSdkMissing)
    ensures Lower(c.modelProvider) == "gemini" && !Truthy(c.apiKey) ==>
      r == Failure("Gemini requires an API key")
  {
    var name := Lower(c.modelProvider);
    if name == "ollama" then
      Success(Ollama(if Truthy(c.apiUrl) then c.apiUrl.value else DefaultOllamaUrl))
    else if name == "github" then
      if !Truthy(c.apiKey) then Failure("GitHub Models requires an API key")
      else if !azureSdk then Failure(AzureSdkMissing)
      else Success(GitHubModels(GitHubEndpoint))
    else if name == "mock" then
      Success(NoProvider)
    else if name == "gemini" then
      if Truthy(c.apiKey) then Success(Gemini(GeminiUrl))
      else Failure("Gemini requires an API key")
    else
      Failure("Unsupported model provider: " + c.modelProvider)
  }

  /** The selection is case-insensitive: writing the name in any case selects the same
      provider as writing it in lower case. */
  lemma CreateProviderCaseInsensitive(c: GeneratorConfig, azureSdk: bool)
    requires Lower(c.modelProvider) in SupportedNames
    ensures CreateProvider(c, azureSdk) == CreateProvider(c.(modelProvider := Lower(c.modelProvider)), azureSdk)
  {
    LowerIdempotent(c.modelProvider);
  }

  /** The text an Ollama request carries: system prompt, a blank line, then the prompt,
      even when the system prompt is empty. */
  function OllamaPromptText(prompt: string, systemPrompt: string): (r: string)
    ensures StartsWith(r, systemPrompt) && EndsWith(r, prompt)
    ensures |r| == |systemPrompt| + 2 + |prompt|
    ensures r[|systemPrompt|..|systemPrompt| + 2] == "\n\n"
  {
    systemPrompt + "\n\n" + prompt
  }

  /** The text a Gemini request carries: the prompt alone when there is no system prompt,
      otherwise system prompt, a blank line, then the prompt. */
  function GeminiPromptText(prompt: string, systemPrompt: string): (r: string)
    ensures r == prompt <==> systemPrompt == ""
    ensures StartsWith(r, systemPrompt) && EndsWith(r, prompt)
    ensures systemPrompt != "" ==>
      |r| == |systemPrompt| + 2 + |prompt| && r[|systemPrompt|..|systemPrompt| + 2] == "\n\n"
  {
    if systemPrompt != "" then systemPrompt + "\n\n" + prompt else prompt
  }

  datatype ChatMessage = SystemMessage(content: string) | UserMessage(content: string)

  /** The messages a GitHub Models request carries: a system message only when the system
      prompt is not empty, and the prompt as the last, user, message. */
  function GitHubMessages(prompt: string, systemPrompt: string): (r: seq<ChatMessage>)
    ensures |r| == if systemPrompt == "" then 1 else 2
    ensures r[|r| - 1] == UserMessage(prompt)
    ensures systemPrompt != "" ==> r[0] == SystemMessage(systemPrompt)
  {
    (if systemPrompt != "" then [SystemMessage(systemPrompt)] else []) + [UserMessage(prompt)]
  }

  /** The part of an Ollama response body the provider reads: its "response" field, if any. */
  function OllamaReply(responseField: Option<string>): (r: Reply)
    ensures r.Answer?
    ensures responseField.None? ==> r.text == ""
    ensures responseField.Some? ==> r.text == responseField.value
  {
    Answer(if responseField.Some? then responseField.value else "")
  }

  /** The parts of a Gemini response body the provider reads: the candidate list; for each
      candidate its content; in the content its list of parts; in each part its text. A key
      the body lacks is `None`. */
  datatype GeminiPart = GeminiPart(text: Option<string>)
  datatype GeminiContent = GeminiContent(parts: Option<seq<GeminiPart>>)
  datatype GeminiCandidate = GeminiCandidate(content: Option<GeminiContent>)
  datatype GeminiBody = GeminiBody(candidates: Option<seq<GeminiCandidate>>)

  /** The body has a first candidate, and that candidate has a content. */
  predicate HasFirstContent(body: GeminiBody) {
    body.candidates.Some? && |body.candidates.value| > 0 && body.candidates.value[0].content.Some?
  }

  /** The content's first part has a text. */
  predicate HasFirstText(c: GeminiContent) {
    c.parts.Some? && |c.parts.value| > 0 && c.parts.value[0].text.Some?
  }

  /** The Gemini provider's reading of a response body: the text of the first part of the
      first candidate's content; a fixed error text (returned, not raised) when there is no
      candidate or the first one has no content; an exception (KeyError, IndexError) when the
      content has no first part or that part no text. */
  function GeminiReply(body: GeminiBody): (r: Reply)
    ensures !HasFirstContent(body) ==> r == Answer(GeminiFormatError)
    ensures HasFirstContent(body) ==>
      var content := body.candidates.value[0].content.value;
      (r.Raised? <==> !HasFirstText(content))
      && (HasFirstText(content) ==> r == Answer(content.parts.value[0].text.value))
  {
    if body.candidates.Some? && |body.candidates.value| > 0 then
      var first := body.candidates.value[0];
      if first.content.Some? then
        var parts := first.content.value.parts;
        if parts.Some? && |parts.value| > 0 && parts.value[0].text.Some? then Answer(parts.value[0].text.value)
        else Raised
      else Answer(GeminiFormatError)
    else Answer(GeminiFormatError)
  }
}
