/** The custom text generator: an adapter that turns a conversation into one
    prompt string, hands it to an injected `string -> string` function, wraps the
    answer in the standard response envelope and memoises it in a cache keyed by
    the prompt and the whole configuration. */
module CustomTextGen {
  import opened Datamodel

  // ---------------------------------------------------------------------------
  // Prompt formatting
  // ---------------------------------------------------------------------------

  /** The line one message contributes to the prompt: a system message gives its
      content alone, any other role is written as "role: content". */
  function Line(m: Message): (r: string)
    ensures |r| > |m.content| && r[|r| - 1] == '\n'
    ensures m.role != "system" ==> m.role + ": " <= r
  {
    if m.role == "system" then m.content + "\n"
    else m.role + ": " + m.content + "\n"
  }

  /** The prompt built from a sequence of messages: one line per message, in
      input order. */
  function Format(ms: seq<Message>): (r: string)
    ensures (r == "") == (ms == [])
    ensures |r| >= |ms|
  {
    if ms == [] then "" else Line(ms[0]) + Format(ms[1..])
  }

  /** Formatting the empty conversation gives the empty prompt. */
  lemma FormatEmpty()
    ensures Format([]) == ""
  {
  }

  /** A system message contributes exactly its content and a newline, with no
      role prefix; any other role contributes its role verbatim, ": ", the
      content and a newline. */
  lemma {:induction false} FormatSingle(m: Message)
    ensures m.role == "system" ==> Format([m]) == m.content + "\n"
    ensures m.role != "system" ==> Format([m]) == m.role + ": " + m.content + "\n"
  {
    assert [m][1..] == [];
  }

  /** Formatting distributes over concatenation of conversations. */
  lemma {:induction false} FormatAppend(a: seq<Message>, b: seq<Message>)
    ensures Format(a + b) == Format(a) + Format(b)
    decreases |a|
  {
    if a == [] {
      assert a + b == b;
    } else {
      assert (a + b)[1..] == a[1..] + b;
      FormatAppend(a[1..], b);
    }
  }

  /** Appending one message to a conversation appends exactly that message's line. */
  lemma {:induction false} FormatSnoc(ms: seq<Message>, m: Message)
    ensures Format(ms + [m]) == Format(ms) + Line(m)
  {
    FormatAppend(ms, [m]);
    assert [m][1..] == [];
  }

  /** One turn of the formatting loop, on strings alone: extending the
      accumulated prompt the way the loop does appends exactly the message's line. */
  lemma AppendLine(acc: string, m: Message, next: string)
    requires next == if m.role == "system" then acc + m.content + "\n"
                     else acc + m.role + ": " + m.content + "\n"
    ensures next == acc + Line(m)
  {
    if m.role == "system" {
      assert acc + m.content + "\n" == acc + (m.content + "\n");
    } else {
      assert acc + m.role + ": " + m.content + "\n" == acc + (m.role + ": " + m.content + "\n");
    }
  }

  /** The prompt of the first `i + 1` messages extends that of the first `i`
      by the line of message `i`. */
  lemma FormatPrefixStep(ms: seq<Message>, i: nat)
    requires i < |ms|
    ensures Format(ms[..i + 1]) == Format(ms[..i]) + Line(ms[i])
  {
    assert ms[..i + 1] == ms[..i] + [ms[i]];
    FormatSnoc(ms[..i], ms[i]);
  }

  /** The prompt of every prefix of a conversation is a prefix of its prompt:
      lines appear in input order and earlier lines are never rewritten. */
  lemma {:induction false} FormatPrefix(ms: seq<Message>, k: nat)
    requires k <= |ms|
    ensures Format(ms[..k]) <= Format(ms)
    ensures Format(ms) == Format(ms[..k]) + Format(ms[k..])
  {
    assert ms == ms[..k] + ms[k..];
    FormatAppend(ms[..k], ms[k..]);
  }

  /** A non-empty conversation gives a prompt that ends in a newline. */
  lemma {:induction false} FormatEndsWithNewline(ms: seq<Message>)
    requires ms != []
    ensures |Format(ms)| > 0 && Format(ms)[|Format(ms)| - 1] == '\n'
    decreases |ms|
  {
    if |ms| > 1 {
      FormatEndsWithNewline(ms[1..]);
    }
  }

  /** How many times `c` occurs in `s`. */
  function Count(s: string, c: char): nat
  {
    if s == [] then 0 else (if s[0] == c then 1 else 0) + Count(s[1..], c)
  }

  lemma {:induction false} CountAppend(s: string, t: string, c: char)
    ensures Count(s + t, c) == Count(s, c) + Count(t, c)
    decreases |s|
  {
    if s == [] {
      assert s + t == t;
    } else {
      assert (s + t)[1..] == s[1..] + t;
      CountAppend(s[1..], t, c);
    }
  }

  lemma {:induction false} CountAbsent(s: string, c: char)
    requires c !in s
    ensures Count(s, c) == 0
    decreases |s|
  {
    if s != [] {
      assert forall x :: x in s[1..] ==> x in s;
      CountAbsent(s[1..], c);
    }
  }

  /** No role or content of the conversation contains a newline. */
  predicate SingleLineFields(ms: seq<Message>)
  {
    forall i :: 0 <= i < |ms| ==> '\n' !in ms[i].role && '\n' !in ms[i].content
  }

  /** When no field holds a newline of its own, the prompt has exactly one
      newline-terminated line per message. */
  lemma {:induction false} FormatLineCount(ms: seq<Message>)
    requires SingleLineFields(ms)
    ensures Count(Format(ms), '\n') == |ms|
    decreases |ms|
  {
    if ms != [] {
      var m, rest := ms[0], ms[1..];
      assert SingleLineFields(rest) by {
        forall i | 0 <= i < |rest| ensures '\n' !in rest[i].role && '\n' !in rest[i].content {
          assert rest[i] == ms[i + 1];
        }
      }
      FormatLineCount(rest);
      CountAbsent(m.role, '\n');
      CountAbsent(m.content, '\n');
      CountAbsent(": ", '\n');
      assert Count("\n", '\n') == 1;
      if m.role == "system" {
        CountAppend(m.content, "\n", '\n');
      } else {
        CountAppend(m.role, ": ", '\n');
        CountAppend(m.role + ": ", m.content, '\n');
        CountAppend(m.role + ": " + m.content, "\n", '\n');
      }
      CountAppend(Line(m), Format(rest), '\n');
    }
  }

  /** The formatted prompt alone is the cache key's view of a conversation, so a
      system message whose content already reads "user: hi" yields the same
      prompt, and therefore the same cache key, as a user message "hi". */
  lemma PromptCollision(f: string -> string, cache: map<CacheKey, Response>, config: Config)
    ensures [Message("system", "user: hi")] != [Message("user", "hi")]
    ensures Format([Message("system", "user: hi")]) == Format([Message("user", "hi")])
    ensures GenerateStep(f, cache, [Message("system", "user: hi")], config)
            == GenerateStep(f, cache, [Message("user", "hi")], config)
  {
    FormatSingle(Message("system", "user: hi"));
    FormatSingle(Message("user", "hi"));
  }

  // ---------------------------------------------------------------------------
  // Generation with memoisation
  // ---------------------------------------------------------------------------

  /** What one call to `generate` returns and leaves behind: the response, the
      cache afterwards, and whether the text function was called. */
  datatype Step = Step(response: Response, cache: map<CacheKey, Response>, called: bool)

  /** The freshly built envelope for a raw answer of the text function. */
  function Wrap(output: string): (r: Response)
    ensures |r.text| == 1 && r.text[0].role == "system" && r.text[0].content == output
    ensures r.logprobs == [] && r.usage == map[] && r.config == map[]
  {
    Response([Message("system", output)], [], map[], map[])
  }

  /** One call to `generate`, as a function of the text function, the cache
      before the call, the messages and the configuration. */
  function GenerateStep(f: string -> string, cache: map<CacheKey, Response>,
                        messages: seq<Message>, config: Config): (r: Step)
    ensures r.called == !(config.useCache && CacheKey(Format(messages), config) in cache)
    ensures r.cache.Keys == cache.Keys + (if config.useCache then {CacheKey(Format(messages), config)} else {})
    ensures forall k :: k in cache ==> r.cache[k] == cache[k]
  {
    var prompt := Format(messages);
    var key := CacheKey(prompt, config);
    if config.useCache && key in cache then
      Step(cache[key], cache, false)
    else
      var response := Wrap(f(prompt));
      Step(response, if config.useCache then cache[key := response] else cache, true)
  }

  /** A cache hit returns the stored response, calls nothing and leaves the
      cache as it was. */
  lemma CacheHit(f: string -> string, cache: map<CacheKey, Response>,
                 messages: seq<Message>, config: Config)
    requires config.useCache && CacheKey(Format(messages), config) in cache
    ensures var s := GenerateStep(f, cache, messages, config);
      s.response == cache[CacheKey(Format(messages), config)] && s.cache == cache && !s.called
  {
  }

  /** On a miss, or with caching off, the text function is called once, on the
      formatted prompt, and its answer becomes the single system message of a
      response whose logprobs, usage and config are all empty, whatever the
      input configuration. */
  lemma CacheMiss(f: string -> string, cache: map<CacheKey, Response>,
                  messages: seq<Message>, config: Config)
    requires !(config.useCache && CacheKey(Format(messages), config) in cache)
    ensures var s := GenerateStep(f, cache, messages, config);
      s.called &&
      s.response.text == [Message("system", f(Format(messages)))] &&
      s.response.logprobs == [] && s.response.usage == map[] && s.response.config == map[]
  {
  }

  /** With caching on, a miss stores the returned response under the request's
      key and changes no other key. */
  lemma MissStores(f: string -> string, cache: map<CacheKey, Response>,
                   messages: seq<Message>, config: Config)
    requires config.useCache && CacheKey(Format(messages), config) !in cache
    ensures var s := GenerateStep(f, cache, messages, config);
      var key := CacheKey(Format(messages), config);
      s.cache.Keys == cache.Keys + {key} &&
      s.cache[key] == s.response &&
      forall k :: k in cache ==> s.cache[k] == cache[k]
  {
  }

  /** With caching on, repeating a call with the same messages and configuration
      makes no further call and returns the same response. */
  lemma RepeatHits(f: string -> string, cache: map<CacheKey, Response>,
                   messages: seq<Message>, config: Config)
    requires config.useCache
    ensures var s1 := GenerateStep(f, cache, messages, config);
      var s2 := GenerateStep(f, s1.cache, messages, config);
      !s2.called && s2.response == s1.response && s2.cache == s1.cache
  {
  }

  /** A different configuration is a different key: after a call with `c1`, a
      call with any other configuration `c2` (caching on, not yet cached) still
      calls the text function. */
  lemma ConfigChangeMisses(f: string -> string, cache: map<CacheKey, Response>,
                           messages: seq<Message>, c1: Config, c2: Config)
    requires c1 != c2 && c2.useCache && CacheKey(Format(messages), c2) !in cache
    ensures var s1 := GenerateStep(f, cache, messages, c1);
      GenerateStep(f, s1.cache, messages, c2).called
  {
  }

  /** With caching off the cache is neither read nor written: the step calls the
      text function, keeps the cache unchanged and answers the same whatever the
      cache holds. */
  lemma NoCacheIgnoresCache(f: string -> string, c1: map<CacheKey, Response>,
                            c2: map<CacheKey, Response>, messages: seq<Message>,
                            config: Config)
    requires !config.useCache
    ensures var s1 := GenerateStep(f, c1, messages, config);
      s1.called && s1.cache == c1 &&
      s1.response == GenerateStep(f, c2, messages, config).response
  {
  }

  /** The cache agrees with the text function: every stored entry is the
      response a fresh call would build for its prompt. A cache written only by
      `generate` with `f` stays so; the key does not name `f`, so nothing else
      keeps it so. */
  predicate Coherent(f: string -> string, cache: map<CacheKey, Response>)
  {
    forall k :: k in cache ==> cache[k] == Wrap(f(k.prompt))
  }

  /** Against a coherent cache a hit answers exactly what a fresh call would,
      so every response has one system message and empty logprobs, usage and
      config, and the cache stays coherent. */
  lemma CoherentStep(f: string -> string, cache: map<CacheKey, Response>,
                     messages: seq<Message>, config: Config)
    requires Coherent(f, cache)
    ensures var s := GenerateStep(f, cache, messages, config);
      s.response == Wrap(f(Format(messages))) && Coherent(f, s.cache) &&
      s.response.logprobs == [] && s.response.usage == map[] && s.response.config == map[]
  {
  }

  /** Upper-cases ASCII letters; a sample text function. */
  function Upper(s: string): string
  {
    seq(|s|, i requires 0 <= i < |s| => if 'a' <= s[i] <= 'z' then (s[i] as int - 32) as char else s[i])
  }

  /** With the text function upper-casing its prompt, a single user message "hi"
      is answered by one system message "USER: HI\n". */
  lemma UpperExample(cache: map<CacheKey, Response>, config: Config)
    requires !(config.useCache && CacheKey("user: hi\n", config) in cache)
    ensures GenerateStep(Upper, cache, [Message("user", "hi")], config).response.text
            == [Message("system", "USER: HI\n")]
  {
    FormatSingle(Message("user", "hi"));
    assert Format([Message("user", "hi")]) == "user: hi\n";
    assert Upper("user: hi\n") == "USER: HI\n";
  }

  // ---------------------------------------------------------------------------
  // The generator object
  // ---------------------------------------------------------------------------

  /** The adapter object. Its text function is fixed at construction; the cache
      it shares with the rest of the toolkit is a map it reads and updates; the
      ghost `prompts` records every prompt handed to the text function. */
  class CustomTextGenerator {
    const textGenerationFunction: string -> string
    var cache: map<CacheKey, Response>
    ghost var prompts: seq<string>

    constructor (f: string -> string, cache: map<CacheKey, Response>)
      ensures textGenerationFunction == f && this.cache == cache && prompts == []
    {
      textGenerationFunction := f;
      this.cache := cache;
      prompts := [];
    }

    /** Builds the prompt one message at a time. */
    method FormatMessages(messages: seq<Message>) returns (prompt: string)
      ensures prompt == Format(messages)
    {
      prompt := "";
      for i := 0 to |messages|
        invariant prompt == Format(messages[..i])
      {
        var message := messages[i];
        ghost var before := prompt;
        if message.role == "system" {
          prompt := prompt + message.content + "\n";
        } else {
          prompt := prompt + message.role + ": " + message.content + "\n";
        }
        AppendLine(before, message, prompt);
        FormatPrefixStep(messages, i);
      }
      assert messages[..|messages|] == messages;
    }

    /** One generation request: format, look up, call on a miss, wrap, store. */
    method Generate(messages: seq<Message>, config: Config) returns (response: Response)
      modifies this
      ensures var s := GenerateStep(textGenerationFunction, old(cache), messages, config);
        response == s.response && cache == s.cache &&
        prompts == old(prompts) + (if s.called then [Format(messages)] else [])
      ensures Coherent(textGenerationFunction, old(cache)) ==>
        response == Wrap(textGenerationFunction(Format(messages))) &&
        Coherent(textGenerationFunction, cache)
    {
      if Coherent(textGenerationFunction, cache) {
        CoherentStep(textGenerationFunction, cache, messages, config);
      }
      var useCache := config.useCache;
      var prompt := FormatMessages(messages);
      var key := CacheKey(prompt, config);
      if useCache {
        if key in cache {
          return cache[key];
        }
      }
      var generation := textGenerationFunction(prompt);
      prompts := prompts + [prompt];
      response := Response([Message("system", generation)], [], map[], map[]);
      if useCache {
        cache := cache[key := response];
      }
    }
  }
}
