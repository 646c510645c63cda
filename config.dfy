/** The fixed configuration the pipeline reads: default, supported
    strategies and languages, and the spaCy model configured per language. */
module Config {

  const DefaultStrategy: string := "consistent_tokens"
  const DefaultLanguage: string := "auto"

  const SupportedStrategies: seq<string> := ["consistent_tokens", "masking", "hashing"]

  const SupportedLanguages: seq<string> := ["en", "pt", "auto"]

  /** (language, model name), in configuration order. */
  const SpacyModels: seq<(string, string)> := [("en", "en_core_web_sm"), ("pt", "pt_core_news_sm")]
}
