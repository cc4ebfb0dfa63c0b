/**
 What a prefix lookup is worth: on an index that mirrors an engine's cache, the
 evidence for a prompt is exactly the prompt's longest cached prefix.
 */
module PrefixEvidence {
  import opened Common
  import opened Recency
  import opened KvEventIndex
  import opened KvEventAdapter
  import opened KvPipeline
  import opened BlockHash

  /** The first `n` blocks of the prompts are there and are the same. */
  ghost predicate SharePrefix(size: nat, n: nat, stored: Tokens, prompt: Tokens) {
    n * size <= |stored| && n * size <= |prompt| && stored[..n * size] == prompt[..n * size]
  }

  ghost predicate IsBlockOf(h: Hasher, stored: set<Tokens>, key: string)
    requires h.blockSize > 0
  {
    exists t, j :: t in stored && 0 <= j < |Keys(h, t)| && Keys(h, t)[j] == key
  }

  /** The engine's cache holds the full blocks of the stored prompts, and nothing else. */
  ghost predicate CachesPrompts(cache: Cache, h: Hasher, stored: set<Tokens>)
    requires h.blockSize > 0
  {
    (forall key :: key in cache <==> IsBlockOf(h, stored, key)) &&
    (forall key :: key in cache ==> cache[key].size == h.blockSize)
  }

  /** The engine stored the block at most `ttl` before now, counting from the millisecond written for it. */
  predicate StoredWithin(cache: Cache, key: string, now: int, ttl: int) {
    key in cache && now - LastMillisecond(cache[key].storedAt) <= ttl
  }

  ghost predicate AllStoredWithin(cache: Cache, keys: seq<string>, n: nat, now: int, ttl: int) {
    forall i :: 0 <= i < n <= |keys| ==> StoredWithin(cache, keys[i], now, ttl)
  }

  lemma UsableIffShared(items: seq<Item<KvEvent>>, b: string, cache: Cache, h: Hasher, stored: set<Tokens>,
                        prompt: Tokens, i: nat, now: int, ttl: int)
    requires Injective(h) && Mirrors(items, b, cache) && CachesPrompts(cache, h, stored)
    requires i < |Keys(h, prompt)|
    ensures Usable(items, Composite(b, Keys(h, prompt)[i]), now, ttl) <==>
            StoredWithin(cache, Keys(h, prompt)[i], now, ttl) &&
            exists t :: t in stored && SharePrefix(h.blockSize, i + 1, t, prompt)
    ensures Usable(items, Composite(b, Keys(h, prompt)[i]), now, ttl) ==>
            TokensOf(items, Composite(b, Keys(h, prompt)[i])) == h.blockSize
  {
    hide Keys;
    hide Find;
    var key := Keys(h, prompt)[i];
    assert SameAt(items, b, cache, key);
    if key in cache {
      assert IsBlockOf(h, stored, key);
      var t, j :| t in stored && 0 <= j < |Keys(h, t)| && Keys(h, t)[j] == key;
      KeysShareIff(h, t, j, prompt, i);
      assert SharePrefix(h.blockSize, i + 1, t, prompt);
    }
    if t :| t in stored && SharePrefix(h.blockSize, i + 1, t, prompt) {
      EnoughBlocks(h.blockSize, i, |t|);
      KeysShareIff(h, t, i, prompt, i);
      assert IsBlockOf(h, stored, key);
    }
  }

  lemma EnoughBlocks(size: nat, i: nat, n: nat)
    requires size > 0 && (i + 1) * size <= n
    ensures i < n / size
  {
    TimesGrows(i, n / size, size);
    assert (i + 1) * size == i * size + size && n < n / size * size + size;
  }

  lemma ShareLess(size: nat, n: nat, m: nat, stored: Tokens, prompt: Tokens)
    requires m <= n && SharePrefix(size, n, stored, prompt)
    ensures SharePrefix(size, m, stored, prompt)
  {
    assert m * size <= n * size;
    assert stored[..m * size] == stored[..n * size][..m * size];
    assert prompt[..m * size] == prompt[..n * size][..m * size];
  }

  lemma {:induction false} RunIsBlocks(items: seq<Item<KvEvent>>, b: string, keys: seq<string>, size: nat)
    requires forall i :: 0 <= i < |keys| ==> TokensOf(items, Composite(b, keys[i])) == size
    ensures RunTokens(items, b, keys) == |keys| * size
  {
    if keys != [] {
      RunIsBlocks(items, b, keys[..|keys| - 1], size);
    }
  }

  /** `n` blocks of the prompt are reported exactly if a stored prompt begins with them and each was stored recently enough. */
  lemma EvidenceIsExact(items: seq<Item<KvEvent>>, b: string, cache: Cache, h: Hasher, stored: set<Tokens>,
                        prompt: Tokens, now: int, ttl: int, n: nat)
    requires Injective(h) && Mirrors(items, b, cache) && CachesPrompts(cache, h, stored)
    requires 0 < n <= |Keys(h, prompt)|
    ensures n <= UsableRun(items, b, Keys(h, prompt), now, ttl) <==>
            AllStoredWithin(cache, Keys(h, prompt), n, now, ttl) &&
            exists t :: t in stored && SharePrefix(h.blockSize, n, t, prompt)
  {
    hide Mirrors;
    hide CachesPrompts;
    hide SharePrefix;
    hide StoredWithin;
    hide Usable;
    hide UsableRun;
    hide Keys;
    var run := UsableRun(items, b, Keys(h, prompt), now, ttl);
    if n <= run {
      forall i | 0 <= i < n ensures StoredWithin(cache, Keys(h, prompt)[i], now, ttl) {
        UsableIffShared(items, b, cache, h, stored, prompt, i, now, ttl);
      }
      UsableIffShared(items, b, cache, h, stored, prompt, n - 1, now, ttl);
    } else if t :| t in stored && SharePrefix(h.blockSize, n, t, prompt) {
      ShareLess(h.blockSize, n, run + 1, t, prompt);
      UsableIffShared(items, b, cache, h, stored, prompt, run, now, ttl);
    }
  }

  /** The reported tokens are those of the reported blocks, never more than the prompt has. */
  lemma EvidenceTokens(items: seq<Item<KvEvent>>, b: string, cache: Cache, h: Hasher, stored: set<Tokens>,
                       prompt: Tokens, now: int, ttl: int)
    requires Injective(h) && Mirrors(items, b, cache) && CachesPrompts(cache, h, stored)
    ensures var run := UsableRun(items, b, Keys(h, prompt), now, ttl);
            RunTokens(items, b, Keys(h, prompt)[..run]) == run * h.blockSize <= |prompt|
  {
    hide Mirrors;
    hide CachesPrompts;
    hide SharePrefix;
    hide Usable;
    hide TokensOf;
    hide UsableRun;
    hide Keys;
    var keys := Keys(h, prompt);
    var run := UsableRun(items, b, keys, now, ttl);
    forall i | 0 <= i < run ensures TokensOf(items, Composite(b, keys[i])) == h.blockSize {
      UsableIffShared(items, b, cache, h, stored, prompt, i, now, ttl);
    }
    RunIsBlocks(items, b, keys[..run], h.blockSize);
    RunFits(h.blockSize, run, |prompt|);
  }

  lemma MirroredAt(items: seq<Item<KvEvent>>, b: string, cache: Cache, key: string)
    requires Mirrors(items, b, cache)
    ensures SameAt(items, b, cache, key)
  {
  }

  lemma LatestIs(items: seq<Item<KvEvent>>, b: string, cache: Cache, key: string)
    requires SameAt(items, b, cache, key) && key in cache
    ensures Find(items, Composite(b, key)).Some?
    ensures Time(Find(items, Composite(b, key)).value) == LastMillisecond(cache[key].storedAt)
  {
  }

  /**
   What is reported beside the length: the share of the prompt, the instant the
   last of the reported blocks was stored, and the confidence for its age.
   Nothing is reported as missing unless not one block is.
   */
  lemma EvidenceIsOfLastBlock(items: seq<Item<KvEvent>>, b: string, cache: Cache, h: Hasher, stored: set<Tokens>,
                              prompt: Tokens, now: int, ttl: int, decay: int -> real)
    requires Injective(h) && Mirrors(items, b, cache) && CachesPrompts(cache, h, stored)
    ensures var keys := Keys(h, prompt);
            var run := UsableRun(items, b, keys, now, ttl);
            var r := PrefixEvidence(items, b, keys[..run], |prompt|, now, decay);
            if run == 0 then r.quality == Missing && r.matchedTokens == 0 && r.matchRatio == 0.0 && r.confidence == 0.0
            else r.quality == Fresh && r.matchedTokens == run * h.blockSize &&
                 r.matchRatio * |prompt| as real == (run * h.blockSize) as real &&
                 keys[run - 1] in cache && DatedBy(r, LastMillisecond(cache[keys[run - 1]].storedAt), now, decay)
  {
    hide Mirrors;
    hide CachesPrompts;
    hide SharePrefix;
    hide Usable;
    hide UsableRun;
    hide RunTokens;
    hide LastMillisecond;
    hide Keys;
    hide Share;
    hide SameAt;
    var keys := Keys(h, prompt);
    var run := UsableRun(items, b, keys, now, ttl);
    EvidenceTokens(items, b, cache, h, stored, prompt, now, ttl);
    if run == 0 {
      assert keys[..run] == [];
      assert RunTokens(items, b, keys[..run]) == 0;
    } else {
      UsableIffShared(items, b, cache, h, stored, prompt, run - 1, now, ttl);
      MirroredAt(items, b, cache, keys[run - 1]);
      TimesGrows(1, run, h.blockSize);
      assert keys[..run][run - 1] == keys[run - 1];
      LatestIs(items, b, cache, keys[run - 1]);
    }
  }

  /** The evidence bears that instant and the confidence of its age. */
  ghost predicate DatedBy(r: Evidence, instant: int, now: int, decay: int -> real) {
    r.observedAt == Some(instant) && NearestShare(r.confidence, decay(if instant <= now then now - instant else 0))
  }

  lemma RunFits(size: nat, run: nat, n: nat)
    requires size > 0 && run <= n / size
    ensures run * size <= n
  {
    assert run * size <= (n / size) * size <= n;
  }

  /**
   End to end: after any run of the pipeline, once a batch is committed and the
   engine's cache is made of the blocks of some prompts, the gateway's evidence
   for a prompt is its longest prefix in that cache, cut at the first block that
   was last stored, by the engine's log, more than the time to live ago.
   */
  lemma PipelineEvidence(b: string, max: nat, rules: Rules, generation: string, steps: seq<Step>, h: Hasher, stored: set<Tokens>,
                         prompt: Tokens, now: int, ttl: int, n: nat)
    requires Safe(rules, max)
    requires b != "" && NUL[0] !in b && generation != "" && CanRun(b, max, rules, generation, steps) && Injective(h)
    requires var s := Run(b, max, rules, generation, steps);
             && s.partial.None? && s.adopted && s.adapter.last.Some? && s.adapter.last.value < |s.log|
             && CachesPrompts(EngineCache(s.log[..s.adapter.last.value + 1]), h, stored)
    requires 0 < n <= |Keys(h, prompt)|
    ensures var s := Run(b, max, rules, generation, steps);
            n <= UsableRun(s.index.items, b, Keys(h, prompt), now, ttl) <==>
            AllStoredWithin(EngineCache(s.log[..s.adapter.last.value + 1]), Keys(h, prompt), n, now, ttl) &&
            exists t :: t in stored && SharePrefix(h.blockSize, n, t, prompt)
  {
    hide Mirrors;
    hide CachesPrompts;
    hide SharePrefix;
    hide EngineCache;
    hide Run;
    hide Keys;
    hide UsableRun;
    ExactlyOnce(b, max, rules, generation, steps);
    var s := Run(b, max, rules, generation, steps);
    EvidenceIsExact(s.index.items, b, EngineCache(s.log[..s.adapter.last.value + 1]), h, stored, prompt, now, ttl, n);
  }

  /** A lookup reorders the index and leaves what it mirrors. */
  lemma LookupKeepsMirror(items: seq<Item<KvEvent>>, b: string, cache: Cache, other: string, keys: seq<string>)
    requires Distinct(items) && Mirrors(items, b, cache)
    ensures Mirrors(TouchedAll(items, other, keys), b, cache)
  {
    forall key ensures SameAt(TouchedAll(items, other, keys), b, cache, key) {
      assert SameAt(items, b, cache, key);
      TouchedAllFind(items, other, keys, Composite(b, key));
    }
  }
}
