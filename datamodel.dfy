/** The plain records the text generator exchanges with its callers and its cache.
    They are values: they are built once and never updated in place. */
module Datamodel {

  /** One turn of a conversation. */
  datatype Message = Message(role: string, content: string)

  /** A generation configuration. Only `useCache` is interpreted by the custom
      generator; every other field (temperature, token limits, model, ...) is an
      opaque pass-through value that still takes part in the cache key. */
  datatype Config = Config(useCache: bool, options: map<string, string>)

  /** The uniform response envelope. */
  datatype Response = Response(
    text: seq<Message>,
    logprobs: seq<real>,
    usage: map<string, int>,
    config: map<string, string>)

  /** The cache key: the formatted prompt together with the whole configuration,
      compared by value. */
  datatype CacheKey = CacheKey(prompt: string, config: Config)
}
