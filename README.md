# CustomTextGenerator, modelled in Dafny

This project models the `CustomTextGenerator` adapter of llmx
(`llmx/generators/text/custom_textgen.py`). The adapter takes a text-generation
function supplied by the user and fits it to the toolkit's generator interface.
It has two operations:

- `format_messages` flattens a conversation into one prompt string. A `system`
  message gives `content + "\n"`. Any other role gives
  `role + ": " + content + "\n"`.
- `generate` formats the conversation and builds a cache key from the prompt
  and the whole configuration. When `use_cache` is set and the key is present,
  it returns the stored response. Otherwise it calls the text function once on
  the prompt and wraps the answer in a fresh response. That response holds one
  `system` message and empty `logprobs`, `usage` and `config`. When caching is
  on, it is stored under the key.

Files:

- `datamodel.dfy` (module `Datamodel`) holds the records: `Message`, `Config`,
  `Response` and `CacheKey`.
- `custom_textgen.dfy` (module `CustomTextGen`) holds the rest:
  - the pure specification `Format` (via `Line`) and its lemmas;
  - the pure specification `GenerateStep` of one `generate` call, and its lemmas;
  - the class `CustomTextGenerator`. Its `FormatMessages` is the source's
    accumulating loop, proved equal to `Format`. Its `Generate` reads and
    updates the `cache` field, and its ghost field `prompts` logs every call to
    the text function.

The text function is a constant field of type `string -> string`, fixed at
construction. The cache is a `map<CacheKey, Response>` field. Keys are compared
by value.

The formatted prompt alone stands for the conversation in the key. So two
different conversations with the same prompt are indistinguishable to
`generate`: for `[system "user: hi"]` and `[user "hi"]` every call gives the
same response, the same cache and the same call decision, whatever the text
function, cache and configuration (lemma `PromptCollision`). The text function
only ever sees the prompt, so this is consistent with memoising it.

The key does not name the text function either. A hit can therefore be trusted
only while the cache is coherent: every entry must be what a fresh call would
build for its prompt (predicate `Coherent`). `generate` keeps a coherent cache
coherent, and against a coherent cache a hit answers exactly what a miss would
(lemma `CoherentStep`). A cache seeded with foreign entries can return any
response on a hit, including one with non-empty `logprobs`.

## Model

| member | source | states |
|---|---|---|
| `CustomTextGen.Line` | llmx/generators/text/custom_textgen.py:50-53 | the line of one message ends in a newline and is longer than its content; a non-system line starts with the role followed by `": "` |
| `CustomTextGen.Format` | llmx/generators/text/custom_textgen.py:47-55 | the prompt is empty exactly when the conversation is, and has at least one character per message |
| `CustomTextGen.AppendLine` | llmx/generators/text/custom_textgen.py:50-53 | each branch of the loop body appends to the accumulated prompt exactly the message's line |
| `CustomTextGen.FormatEmpty` | llmx/generators/text/custom_textgen.py:48-55 | formatting the empty conversation yields the empty prompt |
| `CustomTextGen.FormatSingle` | llmx/generators/text/custom_textgen.py:50-53 | a system message contributes exactly its content and a newline; any other role contributes `role + ": " + content + "\n"` |
| `CustomTextGen.FormatAppend` | llmx/generators/text/custom_textgen.py:48-53 | the prompt of a concatenation of conversations is the concatenation of their prompts |
| `CustomTextGen.FormatSnoc` | llmx/generators/text/custom_textgen.py:49-53 | appending one message appends exactly that message's line |
| `CustomTextGen.FormatPrefix` | llmx/generators/text/custom_textgen.py:49-53 | the prompt of any prefix of a conversation is a prefix of the full prompt, and the rest is the prompt of the remaining messages (lines in input order) |
| `CustomTextGen.FormatEndsWithNewline` | llmx/generators/text/custom_textgen.py:51-53 | a non-empty conversation gives a prompt whose last character is a newline |
| `CustomTextGen.FormatLineCount` | llmx/generators/text/custom_textgen.py:49-53 | when no role or content holds a newline, the prompt holds exactly one newline per message |
| `CustomTextGen.PromptCollision` | llmx/generators/text/custom_textgen.py:25-45 | the distinct conversations `[system "user: hi"]` and `[user "hi"]` format to the same prompt, so `generate` treats them identically: same response, same cache afterwards, same call decision, for every text function, cache and configuration |
| `CustomTextGen.CustomTextGenerator.FormatMessages` | llmx/generators/text/custom_textgen.py:47-55 | the accumulating loop returns exactly `Format(messages)` |
| `CustomTextGen.Wrap` | llmx/generators/text/custom_textgen.py:33-38 | the fresh envelope holds exactly one message, with role `system` and the raw answer as content, and has empty logprobs, usage and config |
| `CustomTextGen.GenerateStep` | llmx/generators/text/custom_textgen.py:18-45 | the text function is called exactly when caching is off or the key is absent; the cache gains the request's key only when caching is on, and no existing entry is changed |
| `CustomTextGen.CacheHit` | llmx/generators/text/custom_textgen.py:26-30 | with caching on and the key present, the stored response is returned, the text function is not called and the cache is unchanged |
| `CustomTextGen.CacheMiss` | llmx/generators/text/custom_textgen.py:32-38 | on a miss or with caching off, the text function is called once on the formatted prompt. The response text is one system message holding its answer. Logprobs, usage and config are empty whatever the input config |
| `CustomTextGen.MissStores` | llmx/generators/text/custom_textgen.py:26-43 | with caching on and a miss, the cache gains the request's key, which maps to the returned response. Every other entry is unchanged |
| `CustomTextGen.RepeatHits` | llmx/generators/text/custom_textgen.py:26-43 | with caching on, repeating an identical call makes no further call and returns the same response and cache |
| `CustomTextGen.ConfigChangeMisses` | llmx/generators/text/custom_textgen.py:26-32 | a call with a different configuration is not answered from the entry the first call stored |
| `CustomTextGen.NoCacheIgnoresCache` | llmx/generators/text/custom_textgen.py:24-43 | with caching off, the text function is always called, the cache is not written, and the response does not depend on what the cache holds |
| `CustomTextGen.CoherentStep` | llmx/generators/text/custom_textgen.py:26-43 | against a coherent cache, the response (hit or miss) equals the fresh envelope of the text function's answer on the prompt, so its logprobs, usage and config are empty; the cache stays coherent |
| `CustomTextGen.UpperExample` | llmx/generators/text/custom_textgen.py:24-34 | with an upper-casing text function and caching off or the key `"user: hi\n"` not yet cached, the conversation `[user "hi"]` is answered by one system message `"USER: HI\n"` |
| `CustomTextGen.CustomTextGenerator.constructor` | llmx/generators/text/custom_textgen.py:9-16 | the generator keeps the given text function; it starts from the given cache and with no calls logged |
| `CustomTextGen.CustomTextGenerator.Generate` | llmx/generators/text/custom_textgen.py:18-45 | the returned response and the new cache are those of `GenerateStep` on the old cache. The prompt log grows by the formatted prompt exactly when the text function was called. If the old cache was coherent, the response is the fresh envelope of the text function's answer and the new cache is coherent |

## Left out

- `count_tokens` (lines 57-58) only delegates to `num_tokens_from_messages`. That function is not part of this model.
- The inner workings of `cache_request` and of `asdict` serialisation are left out. The cache is an abstract map, and the key is the pair (prompt, config) compared by value.
- The base class `TextGenerator` and its constructor are not part of this model. That includes the provider label and the `**kwargs` that supply the cache handle. The constructor takes the initial cache as a parameter instead.
- The user's text function is a foreign call. It is an uninterpreted, deterministic `string -> string`. Its failures, and failures of the cache backend, are not modelled: both simply propagate in the source.
- The check `if response:` (line 29) would treat a stored but empty (falsy) entry as a miss. Here, any present entry is a hit.
- A bare-string `messages` input is not modelled; conversations are sequences of `Message` records only. The source iterates over the string's characters. The empty string `""` makes no iteration, so it yields the prompt `""` and `generate` goes on as with `Format([])`. A non-empty string fails at line 50, where `message["role"]` indexes a one-character string.
- The default argument `config = TextGenerationConfig()` (line 21) has no counterpart: the model always takes `config` explicitly, because the default instance's field values are not part of this model.
- CacheHit: the all-empty `logprobs`, `usage` and `config` promise holds only for a freshly built response, or for a hit against a coherent cache (`CoherentStep`). A cache seeded with other entries (the constructor accepts any) can return anything stored there.
- The `**kwargs` of `generate` (line 22) are ignored by the source and have no counterpart here.
- Concurrent callers sharing one cache are not modelled. Calls are sequential.
