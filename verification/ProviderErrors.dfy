/** Error codes of a provider that did not answer: such a call was not paid for and may be retried. */
module ProviderErrors {
  import opened Options

  predicate RetryableProviderError(code: Option<string>) {
    code.Some? && ("TRANSCRIPTION_PROVIDER_" <= code.value || "CLASSIFICATION_PROVIDER_" <= code.value)
  }
}
