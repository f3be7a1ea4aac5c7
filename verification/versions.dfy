/** Versions that are both stored with a knowledge base and hashed. */
module Versions {
  /** Of the fingerprint's own layout. */
  const TOKENIZER_FINGERPRINT_SCHEMA := "1"

  /** Of the tokenizers library. */
  const TOKENIZER_CRATE_VERSION := "0.23.1"
}
