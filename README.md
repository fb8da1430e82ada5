# Greeting utilities and the AI microservice's completion cache, in Dafny

This project models two small sequential cores of the repository and proves
properties about them.

1. The **hello-world greeting utilities** (`packages/hello-world/src/lib.rs`), in module `Hello`:
   - a `HelloConfig` (greeting, name, repeat count) and its default ("Hello", "World", 1);
   - the `HelloWorld` greeter's `greet`, `greet_many` and `validate_config`;
   - the free functions `utils::create_greeting`, `utils::create_multiple_greetings` and
     `utils::validate_greeting_config`.

   All of these are pure, so they are Dafny functions with lemmas about them.
   `greet` is `"{greeting} {name}!"`. `greet_many` numbers its greetings from 1.
   The validators reject a greeting or name that trims to nothing, then a zero count, in that order.
2. The **AI microservice** (`packages/ai-microservice/src/main.rs`):
   - module `CompletionCache` holds the in-memory prompt/response cache;
   - module `TemplateVariables` holds the template-variable extractor.

   The cache is a class whose `entries: seq<CachedResponse>` field stands for the shared
   `Vec<CachedResponse>`. `Complete` is the cache behaviour of the `complete` handler:
   - on a hit, it returns the first entry stored for the prompt;
   - on a miss, it returns the model's error untouched, or appends the model's answer.

   `Clear` is `clear_cache` and `StatsOf` is `cache_stats`.
   `ExtractVariables` is `extract_variables`. It is a recursive scanner that behaves like
   `captures_iter` for the pattern `\{\{\s*(\w+)\s*\}\}`.

Module `Text` holds the Rust library behaviour these rely on:
- `char::is_whitespace` (Unicode White_Space, which is also the regex class `\s`);
- `str::trim`;
- the decimal `{}` formatting of an unsigned integer;
- the regex word class `\w`.

Module `Wrappers` holds `Option`, `Outcome` (for `anyhow::Result<()>`) and `Result`.

Some inputs of the cache handler are parameters of `Complete`:
- the language-model call (`state.ai_client.complete`) becomes an `AiReply`, either content with its token count or an error message;
- the clock (`chrono::Utc::now()`) becomes an integer timestamp `now`.

A caller may pass any values for them, so the model covers every outcome of the call.

Functions that carry no contract of their own are covered by the lemmas next to them:
- `Hello.Greet` and `Hello.CreateGreeting` (`greet`, `create_greeting`);
- `Hello.ValidateConfig` and `Hello.ValidateGreetingConfig` (the validators);
- `Hello.CreateMultipleGreetings`, `Hello.DefaultConfig` and `Hello.Default`;
- `Text.Trim` and `Text.IsBlank`.

## Model

| member | source | states |
|---|---|---|
| `Text.TrimStart` | packages/hello-world/src/lib.rs:58 | `trim` drops a leading run that is all whitespace; the kept part is a suffix that starts with a non-whitespace character |
| `Text.TrimEnd` | packages/hello-world/src/lib.rs:58 | `trim` drops a trailing run that is all whitespace; the kept part is a prefix that ends with a non-whitespace character |
| `Text.BlankIffAllWhitespace` | packages/hello-world/src/lib.rs:58 | `s.trim().is_empty()` holds exactly when every character of `s` is whitespace |
| `Text.Decimal` | packages/hello-world/src/lib.rs:47 | the `{}` rendering of a number is non-empty, all decimal digits, and has no leading zero except for 0 itself |
| `Text.DecimalRoundTrip` | packages/hello-world/src/lib.rs:47 | reading the printed digits back gives the number printed |
| `Text.DecimalInjective` | packages/hello-world/src/lib.rs:47 | different numbers print differently |
| `Text.WhitespaceIsNotWord` | packages/ai-microservice/src/main.rs:335 | `\s` and `\w` share no character, and neither contains `{` or `}` |
| `Hello.GreetLayout` | packages/hello-world/src/lib.rs:40-42 | `greet` is the greeting, one space, the name and `!`, with nothing else and length \|greeting\| + \|name\| + 2 |
| `Hello.GreetMany` | packages/hello-world/src/lib.rs:45-49 | `greet_many` returns exactly `repeat_count` strings (none for 0); string i is `greet()` followed by ` (#i+1)` |
| `Hello.GreetManyNumbering` | packages/hello-world/src/lib.rs:47 | the number inside greeting i reads back as i + 1, so numbering starts at 1 and rises by one |
| `Hello.GreetManyDistinct` | packages/hello-world/src/lib.rs:45-49 | no two greetings of `greet_many` are equal |
| `Hello.ValidateConfigSpec` | packages/hello-world/src/lib.rs:57-68 | `validate_config` passes iff greeting and name each hold a non-whitespace character and the count is positive; otherwise the first failing check, in source order, names the error |
| `Hello.UtilsAgreeWithGreeter` | packages/hello-world/src/lib.rs:82-91 | `create_greeting` and `create_multiple_greetings` give what `greet` and `greet_many` give for the same values |
| `Hello.ValidatorsAgree` | packages/hello-world/src/lib.rs:94-105 | `validate_greeting_config` accepts exactly what `validate_config` accepts; errors agree except that a zero count reads "Count must..." instead of "Repeat count must..." |
| `Hello.DefaultBehaviour` | packages/hello-world/src/lib.rs:18-26 | the default configuration ("Hello", "World", 1) validates and greets "Hello World!" |
| `Hello.DefaultGreetMany` | packages/hello-world/src/lib.rs:71-75 | the default greeter's `greet_many` gives just "Hello World! (#1)" |
| `Hello.ExampleCustomGreeting` | packages/hello-world/src/lib.rs:161-170 | greeting "Hi" with name "Rust" gives "Hi Rust!" from both `greet` and `create_greeting` |
| `Hello.ExampleGreetMany` | packages/hello-world/src/lib.rs:172-185 | three greetings of "Hello" to "Test" are numbered #1, #2, #3 |
| `Hello.ExampleCreateMultipleGreetings` | packages/hello-world/src/lib.rs:237-243 | two greetings from the free function are numbered #1, #2 |
| `Hello.ExampleValidationFailures` | packages/hello-world/src/lib.rs:246-251 | an empty greeting, an empty name and a zero count are each refused with their own message |
| `CompletionCache.FirstMatchExists` | packages/ai-microservice/src/main.rs:212 | when some entry holds the prompt, there is exactly one first such entry, the one `find` returns |
| `CompletionCache.Cache.Find` | packages/ai-microservice/src/main.rs:212 | the linear search returns nothing iff no entry holds the prompt, and otherwise the position of the first entry that does |
| `CompletionCache.Cache.constructor` | packages/ai-microservice/src/main.rs:169 | the service starts with an empty cache |
| `CompletionCache.Cache.Complete` | packages/ai-microservice/src/main.rs:204-238 | on a hit: the first matching entry's response, `cached = true`, no token count, cache unchanged. On a miss with a model error: that error, cache unchanged. On a miss with content: one entry (prompt, content, now) appended at the end, the content returned with `cached = false` and its token count. A cache whose prompts are distinct stays so |
| `CompletionCache.AppendedEntryIsFirstMatch` | packages/ai-microservice/src/main.rs:223-231 | after a miss appends an entry for a prompt, that entry is the prompt's first match, and every other prompt keeps its first match |
| `CompletionCache.AppendOnMissKeepsPromptsDistinct` | packages/ai-microservice/src/main.rs:211-231 | appending only on a miss never stores a prompt twice |
| `CompletionCache.AskTwice` | packages/ai-microservice/src/main.rs:211-237 | a prompt answered by the model is answered from the cache the next time, with the same content and without the model |
| `CompletionCache.Cache.Clear` | packages/ai-microservice/src/main.rs:321-329 | `clear_cache` reports the previous number of entries with the fixed message and leaves the cache empty |
| `CompletionCache.ClearTwice` | packages/ai-microservice/src/main.rs:321-329 | a second clear in a row reports 0, and the statistics are then 0 entries with no timestamps |
| `CompletionCache.StatsOf` | packages/ai-microservice/src/main.rs:312-319 | `entries` is the cache length; `oldest` and `newest` are absent iff the cache is empty, and otherwise are the first and the last entry's timestamps |
| `CompletionCache.StatsAfterAppend` | packages/ai-microservice/src/main.rs:312-319 | after an append the count rises by one, the new entry is the newest, and the oldest is unchanged unless the cache was empty |
| `TemplateVariables.SkipWhile` | packages/ai-microservice/src/main.rs:335 | a greedy `\s*` or `\w+` run ends at the first position outside the class, or at the end of the text |
| `TemplateVariables.MatchPrefix` | packages/ai-microservice/src/main.rs:335 | a match is at least 5 characters long and lies within the text, and its capture is a non-empty run of word characters |
| `TemplateVariables.MatchPrefixIsPatternMatch` | packages/ai-microservice/src/main.rs:335 | the scanner matches at a position exactly when `\{\{\s*(\w+)\s*\}\}` matches there, and it returns that match's group 1 and its end |
| `TemplateVariables.Scan` | packages/ai-microservice/src/main.rs:336-338 | every name collected by the left-to-right, non-overlapping scan is non-empty and made only of word characters |
| `TemplateVariables.ExtractVariables` | packages/ai-microservice/src/main.rs:333-339 | every name `extract_variables` returns is non-empty and made only of word characters |
| `TemplateVariables.ScanBounded` | packages/ai-microservice/src/main.rs:336-338 | the scan reports at most one name per `{{` in the text |
| `TemplateVariables.ExtractVariablesBounded` | packages/ai-microservice/src/main.rs:333-339 | `extract_variables` never returns more names than there are `{{` occurrences |
| `TemplateVariables.NoOpeningsNoVariables` | packages/ai-microservice/src/main.rs:333-339 | a template containing no `{{` has no variables |
| `TemplateVariables.LiteralSkipped` | packages/ai-microservice/src/main.rs:336-338 | literal text without `{` in front of the rest contributes no name |
| `TemplateVariables.PlaceholderMatches` | packages/ai-microservice/src/main.rs:335 | `{{ name }}` for an identifier `name` matches whatever follows it, capturing `name` |
| `TemplateVariables.ExtractRendered` | packages/ai-microservice/src/main.rs:333-339 | for a template made of brace-free literal text and `{{ name }}` placeholders, `extract_variables` returns the placeholder names, in order, with duplicates |

## Left out

- `Text.IsWordChar`: `\w` is modelled as ASCII letters, digits and `_` only. The regex crate's Unicode `\w` also takes non-ASCII letters, marks, digits and connector punctuation. A placeholder such as `{{ café }}` is therefore found by the service but not by the model.
- `Hello.GreetMany`: `repeat_count` (`usize`) is an unbounded `nat`. No wrap-around can arise, because the largest number printed, `i + 1`, is at most `repeat_count` itself.
- `HelloWorld::config_json` (lib.rs:52-54) is left out. It is serde_json pretty-printing, whose output format is not part of this model.
- `examples::run_basic_example`, `examples::run_custom_example` and the binaries are left out. They only print to the console.
- The axum router, listener, CORS layer, tracing setup and the `health` handler (main.rs:136-202) are left out. They are network I/O and wiring.
- The `generate_template`, `refactor_code` and `generate_ontology` handlers are left out, apart from `extract_variables`. Their results come from external language-model collaborators, and the refactor metrics are fixed floats.
- `CompletionCache.Cache.Complete`: the `RwLock` around the cache is not modelled, and each handler runs as one atomic step. In the service the read lock is dropped before the model call and the write lock is taken after it. Two concurrent misses on one prompt can therefore both append. The distinct-prompts property holds only for the sequential model.
- `CompletionCache.Cache.Complete`: the request's `stream` and `temperature` fields are not modelled; the handler never reads them. The model's error is carried as its message string. Its conversion into an HTTP 500 JSON body (main.rs:113-124) is not modelled.
- Timestamps (`chrono::Utc::now()`) are opaque integers supplied by the caller. Nothing is claimed about their order.
