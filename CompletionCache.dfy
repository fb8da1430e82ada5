/**
 * The in-memory prompt/response cache of the AI microservice: the cache
 * behaviour of the `complete` handler (first-match lookup, append on a miss),
 * `cache_stats` and `clear_cache`, over the shared `Vec<CachedResponse>`.
 * The handlers are modelled one at a time; the language-model call and the
 * clock are parameters of the handler that uses them.
 */
module CompletionCache {
  import opened Wrappers

  /** `CachedResponse`; the timestamp is an opaque instant. */
  datatype CachedResponse = CachedResponse(prompt: string, response: string, timestamp: int)

  /** `CompletionResponse` */
  datatype CompletionResponse = CompletionResponse(content: string, tokensUsed: Option<nat>, cached: bool)

  /** What `ai_client.complete(prompt)` gives back: content and token usage, or an error. */
  datatype AiReply = AiOk(content: string, totalTokens: nat) | AiErr(message: string)

  /** The body of the `cache_stats` reply. */
  datatype CacheStats = CacheStats(entries: nat, oldest: Option<int>, newest: Option<int>)

  /** The body of the `clear_cache` reply. */
  datatype ClearReply = ClearReply(cleared: nat, message: string)

  const ClearedMessage := "Cache cleared successfully"

  /** Some entry was stored for `prompt`. */
  predicate HasPrompt(entries: seq<CachedResponse>, prompt: string) {
    exists i :: 0 <= i < |entries| && entries[i].prompt == prompt
  }

  /** Entry `i` is the first one stored for `prompt`: what `iter().find` picks. */
  predicate IsFirstMatch(entries: seq<CachedResponse>, prompt: string, i: int) {
    && 0 <= i < |entries| && entries[i].prompt == prompt
    && forall j :: 0 <= j < i ==> entries[j].prompt != prompt
  }

  /** No prompt is stored twice. */
  predicate DistinctPrompts(entries: seq<CachedResponse>) {
    forall i, j :: 0 <= i < j < |entries| ==> entries[i].prompt != entries[j].prompt
  }

  /** Any prompt that is stored at all has exactly one first entry. */
  lemma FirstMatchExists(entries: seq<CachedResponse>, prompt: string)
    requires HasPrompt(entries, prompt)
    ensures exists i :: IsFirstMatch(entries, prompt, i)
    ensures forall i, j :: IsFirstMatch(entries, prompt, i) && IsFirstMatch(entries, prompt, j) ==> i == j
  {
    var k :| 0 <= k < |entries| && entries[k].prompt == prompt;
    var i := 0;
    while entries[i].prompt != prompt
      invariant 0 <= i <= k
      invariant forall j :: 0 <= j < i ==> entries[j].prompt != prompt
      decreases k - i
    {
      i := i + 1;
    }
    assert IsFirstMatch(entries, prompt, i);
  }

  /**
   * After a miss on `prompt` appends an entry for it, that new entry is the
   * first match for `prompt`, and every other prompt keeps its first match.
   */
  lemma AppendedEntryIsFirstMatch(entries: seq<CachedResponse>, e: CachedResponse)
    requires !HasPrompt(entries, e.prompt)
    ensures IsFirstMatch(entries + [e], e.prompt, |entries|)
    ensures forall p, i :: IsFirstMatch(entries, p, i) ==> IsFirstMatch(entries + [e], p, i)
  {
  }

  /** Appending only on a miss keeps every prompt stored at most once. */
  lemma AppendOnMissKeepsPromptsDistinct(entries: seq<CachedResponse>, e: CachedResponse)
    requires DistinctPrompts(entries)
    requires !HasPrompt(entries, e.prompt)
    ensures DistinctPrompts(entries + [e])
  {
  }

  /** `cache_stats`: the number of entries and the timestamps of the first and the last. */
  function StatsOf(entries: seq<CachedResponse>): (s: CacheStats)
    ensures s.entries == |entries|
    ensures s.oldest.None? <==> entries == []
    ensures s.newest.None? <==> entries == []
    ensures s.oldest.Some? ==> s.oldest.value == entries[0].timestamp
    ensures s.newest.Some? ==> s.newest.value == entries[|entries| - 1].timestamp
  {
    CacheStats(
      |entries|,
      if entries == [] then None else Some(entries[0].timestamp),
      if entries == [] then None else Some(entries[|entries| - 1].timestamp))
  }

  /**
   * Appending an entry counts one more, makes it the newest, and leaves the
   * oldest where it was unless the cache was empty.
   */
  lemma StatsAfterAppend(entries: seq<CachedResponse>, e: CachedResponse)
    ensures StatsOf(entries + [e]) ==
      CacheStats(StatsOf(entries).entries + 1,
                 if entries == [] then Some(e.timestamp) else StatsOf(entries).oldest,
                 Some(e.timestamp))
  {
  }

  /** The shared cache: `Arc<RwLock<Vec<CachedResponse>>>`, oldest entry first. */
  class Cache {
    var entries: seq<CachedResponse>

    /** `Arc::new(RwLock::new(Vec::new()))`: the service starts with an empty cache. */
    constructor ()
      ensures entries == []
    {
      entries := [];
    }

    /** `cache.iter().find(|c| c.prompt == req.prompt)`, giving the position found. */
    method Find(prompt: string) returns (hit: Option<nat>)
      ensures hit.None? <==> !HasPrompt(entries, prompt)
      ensures hit.Some? ==> IsFirstMatch(entries, prompt, hit.value)
    {
      var i := 0;
      while i < |entries|
        invariant 0 <= i <= |entries|
        invariant forall j :: 0 <= j < i ==> entries[j].prompt != prompt
      {
        if entries[i].prompt == prompt {
          return Some(i);
        }
        i := i + 1;
      }
      return None;
    }

    /**
     * The cache behaviour of `complete`. On a hit, the response of the first
     * entry for the prompt, marked cached and without token usage, and the
     * cache untouched. On a miss, `reply` is what the language model gave:
     * an error is returned before the cache is touched; content is appended
     * to the cache stamped `now` and returned with its token usage.
     */
    method Complete(prompt: string, reply: AiReply, now: int) returns (r: Result<CompletionResponse, string>)
      modifies this
      ensures forall i :: IsFirstMatch(old(entries), prompt, i) ==>
        entries == old(entries) && r == Ok(CompletionResponse(old(entries)[i].response, None, true))
      ensures !HasPrompt(old(entries), prompt) && reply.AiErr? ==>
        entries == old(entries) && r == Err(reply.message)
      ensures !HasPrompt(old(entries), prompt) && reply.AiOk? ==>
        && entries == old(entries) + [CachedResponse(prompt, reply.content, now)]
        && r == Ok(CompletionResponse(reply.content, Some(reply.totalTokens), false))
      ensures DistinctPrompts(old(entries)) ==> DistinctPrompts(entries)
    {
      var hit := Find(prompt);
      if hit.Some? {
        FirstMatchExists(entries, prompt);
        return Ok(CompletionResponse(entries[hit.value].response, None, true));
      }
      match reply
      case AiErr(message) =>
        r := Err(message);
      case AiOk(content, totalTokens) =>
        var e := CachedResponse(prompt, content, now);
        if DistinctPrompts(entries) {
          AppendOnMissKeepsPromptsDistinct(entries, e);
        }
        entries := entries + [e];
        r := Ok(CompletionResponse(content, Some(totalTokens), false));
    }

    /** `clear_cache`: empties the cache and reports how many entries it held. */
    method Clear() returns (reply: ClearReply)
      modifies this
      ensures entries == []
      ensures reply == ClearReply(|old(entries)|, ClearedMessage)
    {
      reply := ClearReply(|entries|, ClearedMessage);
      entries := [];
    }
  }

  /** Two clears in a row: the second finds nothing to clear. */
  method ClearTwice(c: Cache) returns (first: ClearReply, second: ClearReply)
    modifies c
    ensures first.cleared == |old(c.entries)| && second.cleared == 0
    ensures StatsOf(c.entries) == CacheStats(0, None, None)
  {
    first := c.Clear();
    second := c.Clear();
  }

  /**
   * A prompt answered by the model is served from the cache the next time,
   * with the same content and without consulting the model again.
   */
  method AskTwice(c: Cache, prompt: string, content: string, tokens: nat, now: int, later: AiReply, now2: int)
    returns (first: Result<CompletionResponse, string>, second: Result<CompletionResponse, string>)
    requires !HasPrompt(c.entries, prompt)
    modifies c
    ensures first == Ok(CompletionResponse(content, Some(tokens), false))
    ensures second == Ok(CompletionResponse(content, None, true))
    ensures c.entries == old(c.entries) + [CachedResponse(prompt, content, now)]
  {
    ghost var before := c.entries;
    first := c.Complete(prompt, AiOk(content, tokens), now);
    AppendedEntryIsFirstMatch(before, CachedResponse(prompt, content, now));
    second := c.Complete(prompt, later, now2);
  }
}
