/** TranslationProperties: the `translation.*` configuration, its defaults
    and the two "is this provider configured" predicates. */
module TranslationProperties {
  import opened Common
  import JavaString

  datatype DeepLSettings = DeepLSettings(apiKey: Str, apiUrl: Str)

  datatype ClaudeSettings = ClaudeSettings(apiKey: Str, apiUrl: Str, model: Str)

  datatype Properties = Properties(autoTranslate: bool, deepl: DeepLSettings, claude: ClaudeSettings)

  const DefaultDeepLUrl := "https://api-free.deepl.com/v2/translate"
  const DefaultClaudeUrl := "https://api.anthropic.com/v1/messages"
  const DefaultClaudeModel := "claude-haiku-4-5-20251001"

  /** The values the properties hold when nothing is configured. */
  const Defaults := Properties(
    true,
    DeepLSettings(Some(""), Some(DefaultDeepLUrl)),
    ClaudeSettings(Some(""), Some(DefaultClaudeUrl), Some(DefaultClaudeModel)))

  /** isDeepLConfigured: the DeepL key is non-null and not blank. */
  predicate IsDeepLConfigured(p: Properties) {
    HasText(p.deepl.apiKey)
  }

  /** isClaudeConfigured: the Claude key is non-null and not blank. */
  predicate IsClaudeConfigured(p: Properties) {
    HasText(p.claude.apiKey)
  }

  /** A provider counts as configured exactly when its key has a
      non-whitespace character. */
  lemma ConfiguredMeansKeyWithText(p: Properties)
    ensures IsDeepLConfigured(p) <==>
      p.deepl.apiKey.Some? && exists i :: 0 <= i < |p.deepl.apiKey.value| && !JavaString.IsWhitespace(p.deepl.apiKey.value[i])
    ensures IsClaudeConfigured(p) <==>
      p.claude.apiKey.Some? && exists i :: 0 <= i < |p.claude.apiKey.value| && !JavaString.IsWhitespace(p.claude.apiKey.value[i])
  {
  }

  /** Out of the box auto-translation is on but neither provider is usable. */
  lemma DefaultsLeaveProvidersUnconfigured()
    ensures Defaults.autoTranslate
    ensures !IsDeepLConfigured(Defaults) && !IsClaudeConfigured(Defaults)
    ensures Defaults.deepl.apiUrl == Some("https://api-free.deepl.com/v2/translate")
    ensures Defaults.claude.apiUrl == Some("https://api.anthropic.com/v1/messages")
    ensures Defaults.claude.model == Some("claude-haiku-4-5-20251001")
  {
  }
}
