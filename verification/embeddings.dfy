/**
 * Embedding provider selection (packages/embeddings-core/src/embeddings.ts):
 * which provider and which provider settings a configuration selects, the
 * checks made before any provider is called, and how a configuration is
 * read from the environment. The provider calls themselves are network I/O
 * and appear only as the request that would be sent.
 */
module Embeddings {
  import opened Wrappers

  datatype Provider = Ollama | OpenAI

  datatype OllamaConfig = OllamaConfig(model: string, host: Option<string>)
  datatype OpenAIConfig = OpenAIConfig(apiKey: string, model: Option<string>)

  /** `EmbeddingConfig`; the tag is a string so that an unsupported one can be represented. */
  datatype EmbeddingConfig = EmbeddingConfig(
    provider: string,
    ollama: Option<OllamaConfig>,
    openai: Option<OpenAIConfig>)

  /** The sub-config `getProviderConfig` returns. */
  datatype ProviderConfig = OllamaSettings(ollama: OllamaConfig) | OpenAISettings(openai: OpenAIConfig)

  datatype EmbeddingError =
    | UnsupportedProvider(tag: string)
    | OllamaConfigRequired
    | OpenAIConfigRequired
    | NoProviderConfigured

  function Message(e: EmbeddingError): string {
    match e
    case UnsupportedProvider(tag) => "Unsupported embedding provider: " + tag
    case OllamaConfigRequired => "Ollama config is required for ollama provider"
    case OpenAIConfigRequired => "OpenAI config is required for openai provider"
    case NoProviderConfigured => "No embedding provider configured. Set EMBEDDINGS_OLLAMA_MODEL or EMBEDDINGS_OPENAI_KEY"
  }

  function ProviderTag(p: Provider): string {
    match p
    case Ollama => "ollama"
    case OpenAI => "openai"
  }

  /** `getProvider`: `ollama` and `openai` name their providers; any other tag is refused. */
  function GetProvider(config: EmbeddingConfig): (r: Result<Provider, EmbeddingError>)
    ensures r.Ok? <==> config.provider == "ollama" || config.provider == "openai"
    ensures r.Ok? ==> ProviderTag(r.value) == config.provider
    ensures r.Err? ==> r.error == UnsupportedProvider(config.provider)
  {
    if config.provider == "ollama" then Ok(Ollama)
    else if config.provider == "openai" then Ok(OpenAI)
    else Err(UnsupportedProvider(config.provider))
  }

  /** `getProviderConfig`: the sub-config the tag names, which must be present. */
  function GetProviderConfig(config: EmbeddingConfig): (r: Result<ProviderConfig, EmbeddingError>)
    ensures config.provider == "ollama" ==>
              r == if config.ollama.Some? then Ok(OllamaSettings(config.ollama.value)) else Err(OllamaConfigRequired)
    ensures config.provider == "openai" ==>
              r == if config.openai.Some? then Ok(OpenAISettings(config.openai.value)) else Err(OpenAIConfigRequired)
    ensures config.provider != "ollama" && config.provider != "openai" ==> r == Err(UnsupportedProvider(config.provider))
  {
    match config.provider
    case "ollama" => if config.ollama.None? then Err(OllamaConfigRequired) else Ok(OllamaSettings(config.ollama.value))
    case "openai" => if config.openai.None? then Err(OpenAIConfigRequired) else Ok(OpenAISettings(config.openai.value))
    case _ => Err(UnsupportedProvider(config.provider))
  }

  /** Provider settings that `getProviderConfig` accepts always come with a provider, and of the same kind. */
  lemma ProviderMatchesConfig(config: EmbeddingConfig)
    ensures GetProviderConfig(config).Ok? ==> GetProvider(config).Ok?
    ensures GetProviderConfig(config).Ok? ==>
              (GetProvider(config).value == Ollama <==> GetProviderConfig(config).value.OllamaSettings?)
  {
  }

  /** The call a provider is asked to make. */
  datatype ProviderCall =
    | EmbedOne(provider: Provider, settings: ProviderConfig, text: string)
    | EmbedMany(provider: Provider, settings: ProviderConfig, texts: seq<string>)

  /**
   * `generateEmbedding`: the provider is resolved, then its config, and only
   * then is it called, with the text as given and settings of its own kind.
   */
  function GenerateEmbedding(config: EmbeddingConfig, text: string): (r: Result<ProviderCall, EmbeddingError>)
    ensures r.Ok? ==> r.value.EmbedOne? && r.value.text == text
    ensures r.Ok? ==> ProviderTag(r.value.provider) == config.provider
                      && (r.value.provider == Ollama <==> r.value.settings.OllamaSettings?)
  {
    match GetProvider(config)
    case Err(e) => Err(e)
    case Ok(provider) =>
      match GetProviderConfig(config)
      case Err(e) => Err(e)
      case Ok(settings) => Ok(EmbedOne(provider, settings, text))
  }

  /** `generateEmbeddings`: the same checks, then one call for all the texts. */
  function GenerateEmbeddings(config: EmbeddingConfig, texts: seq<string>): (r: Result<ProviderCall, EmbeddingError>)
    ensures r.Ok? ==> r.value.EmbedMany? && r.value.texts == texts
    ensures r.Ok? ==> ProviderTag(r.value.provider) == config.provider
                      && (r.value.provider == Ollama <==> r.value.settings.OllamaSettings?)
  {
    match GetProvider(config)
    case Err(e) => Err(e)
    case Ok(provider) =>
      match GetProviderConfig(config)
      case Err(e) => Err(e)
      case Ok(settings) => Ok(EmbedMany(provider, settings, texts))
  }

  /**
   * A provider is called exactly when the configuration passes
   * `getProviderConfig`, with the provider and settings it names, and
   * a refused configuration raises the error `getProviderConfig` raises.
   */
  lemma GenerateChecksFirst(config: EmbeddingConfig, text: string, texts: seq<string>)
    ensures GenerateEmbedding(config, text).Err? <==> GetProviderConfig(config).Err?
    ensures GenerateEmbedding(config, text).Err? ==> GenerateEmbedding(config, text).error == GetProviderConfig(config).error
    ensures GenerateEmbedding(config, text).Ok? ==>
              GenerateEmbedding(config, text).value
              == EmbedOne(GetProvider(config).value, GetProviderConfig(config).value, text)
    ensures GenerateEmbeddings(config, texts).Err? <==> GetProviderConfig(config).Err?
    ensures GenerateEmbeddings(config, texts).Err? ==> GenerateEmbeddings(config, texts).error == GetProviderConfig(config).error
    ensures GenerateEmbeddings(config, texts).Ok? ==>
              GenerateEmbeddings(config, texts).value
              == EmbedMany(GetProvider(config).value, GetProviderConfig(config).value, texts)
  {
  }

  // ----- getConfigFromEnv -----

  /** The process environment: a variable is absent or holds a string. */
  type Env = map<string, string>

  function Var(env: Env, name: string): Option<string> {
    if name in env then Some(env[name]) else None
  }

  /** A variable is truthy when it is present and not the empty string. */
  predicate IsSet(env: Env, name: string) {
    name in env && env[name] != ""
  }

  /** `getConfigFromEnv`: Ollama when its model is set, else OpenAI when its key is set, else an error. */
  function GetConfigFromEnv(env: Env): (r: Result<EmbeddingConfig, EmbeddingError>)
    ensures r.Err? <==> !IsSet(env, "EMBEDDINGS_OLLAMA_MODEL") && !IsSet(env, "EMBEDDINGS_OPENAI_KEY")
    ensures r.Err? ==> r.error == NoProviderConfigured
  {
    var ollamaModel := Var(env, "EMBEDDINGS_OLLAMA_MODEL");
    var ollamaHost := Var(env, "EMBEDDINGS_OLLAMA_HOST");
    var openaiKey := Var(env, "EMBEDDINGS_OPENAI_KEY");
    var openaiModel := Var(env, "EMBEDDINGS_OPENAI_MODEL");
    if ollamaModel.Some? && ollamaModel.value != "" then
      Ok(EmbeddingConfig("ollama", Some(OllamaConfig(ollamaModel.value, ollamaHost)), None))
    else if openaiKey.Some? && openaiKey.value != "" then
      Ok(EmbeddingConfig("openai", None, Some(OpenAIConfig(openaiKey.value, openaiModel))))
    else
      Err(NoProviderConfigured)
  }

  /** A set Ollama model wins, whatever the OpenAI variables hold. */
  lemma OllamaFirst(env: Env, key: string, model: string)
    requires IsSet(env, "EMBEDDINGS_OLLAMA_MODEL")
    ensures GetConfigFromEnv(env) == GetConfigFromEnv(env["EMBEDDINGS_OPENAI_KEY" := key]["EMBEDDINGS_OPENAI_MODEL" := model])
    ensures GetConfigFromEnv(env)
            == Ok(EmbeddingConfig("ollama",
                                  Some(OllamaConfig(env["EMBEDDINGS_OLLAMA_MODEL"], Var(env, "EMBEDDINGS_OLLAMA_HOST"))),
                                  None))
  {
  }

  /** With no Ollama model (absent or empty), a set OpenAI key gives the OpenAI config. */
  lemma OpenAISecond(env: Env)
    requires !IsSet(env, "EMBEDDINGS_OLLAMA_MODEL") && IsSet(env, "EMBEDDINGS_OPENAI_KEY")
    ensures GetConfigFromEnv(env)
            == Ok(EmbeddingConfig("openai", None,
                                  Some(OpenAIConfig(env["EMBEDDINGS_OPENAI_KEY"], Var(env, "EMBEDDINGS_OPENAI_MODEL")))))
  {
  }

  /** Any config read from the environment passes both checks, so generating with it reaches the provider. */
  lemma EnvConfigUsable(env: Env, text: string)
    requires GetConfigFromEnv(env).Ok?
    ensures GetProvider(GetConfigFromEnv(env).value).Ok?
    ensures GetProviderConfig(GetConfigFromEnv(env).value).Ok?
    ensures GenerateEmbedding(GetConfigFromEnv(env).value, text).Ok?
  {
  }
}
