/** Keys of a prompt's full token blocks, each chained to the block before it. */
module BlockHash {
  import opened Common
  import KvEventAdapter

  type Tokens = seq<nat>

  /** `hash` chains a block to its parent's hash, `encode` writes a hash out. */
  datatype Hasher = Hasher(blockSize: nat, hash: (Option<nat>, Tokens) -> nat, encode: nat -> string)

  /** No two chained blocks share a hash, and no two hashes their written form. */
  ghost predicate Injective(h: Hasher) {
    && h.blockSize > 0
    && (forall p, x, q, y :: h.hash(p, x) == h.hash(q, y) ==> p == q && x == y)
    && (forall m, n :: h.encode(m) == h.encode(n) ==> m == n)
  }

  lemma BlockRange(size: nat, i: nat, n: nat)
    requires size > 0 && i < n / size
    ensures i * size <= (i + 1) * size <= n && (i + 1) * size == i * size + size
  {
    assert (n / size) * size <= n;
    assert (i + 1) * size <= (n / size) * size;
  }

  function Block(size: nat, tokens: Tokens, i: nat): Tokens
    requires size > 0 && i < |tokens| / size
  {
    BlockRange(size, i, |tokens|);
    tokens[i * size..(i + 1) * size]
  }

  function ChainedHash(h: Hasher, tokens: Tokens, i: nat): nat
    requires h.blockSize > 0 && i < |tokens| / h.blockSize
  {
    h.hash(if i == 0 then None else Some(ChainedHash(h, tokens, i - 1)), Block(h.blockSize, tokens, i))
  }

  function Keys(h: Hasher, tokens: Tokens): (keys: seq<string>)
    requires h.blockSize > 0
    ensures |keys| == |tokens| / h.blockSize
  {
    seq(|tokens| / h.blockSize, i requires 0 <= i < |tokens| / h.blockSize =>
      KvEventAdapter.CacheKey(h.encode(ChainedHash(h, tokens, i))))
  }

  lemma NextHash(h: Hasher, tokens: Tokens, i: nat)
    requires h.blockSize > 0 && i < |tokens| / h.blockSize
    ensures 0 <= i * h.blockSize <= i * h.blockSize + h.blockSize <= |tokens|
    ensures ChainedHash(h, tokens, i) ==
            h.hash(if i == 0 then None else Some(ChainedHash(h, tokens, i - 1)),
                   tokens[i * h.blockSize..i * h.blockSize + h.blockSize])
  {
    BlockRange(h.blockSize, i, |tokens|);
  }

  method HashTokens(h: Hasher, tokens: Tokens) returns (keys: seq<string>, tokenCount: nat, fullBlocks: nat)
    requires h.blockSize > 0
    ensures keys == Keys(h, tokens) && tokenCount == |tokens|
    ensures fullBlocks == |keys| && fullBlocks * h.blockSize <= tokenCount < (fullBlocks + 1) * h.blockSize
  {
    hide ChainedHash;
    hide KvEventAdapter.CacheKey;
    var parent: Option<nat> := None;
    keys := [];
    fullBlocks := |tokens| / h.blockSize;
    for i := 0 to fullBlocks
      invariant keys == Keys(h, tokens)[..i]
      invariant parent == if i == 0 then None else Some(ChainedHash(h, tokens, i - 1))
    {
      NextHash(h, tokens, i);
      var start := i * h.blockSize;
      var block := tokens[start..start + h.blockSize];
      parent := Some(h.hash(parent, block));
      keys := keys + [KvEventAdapter.CacheKey(h.encode(parent.value))];
    }
    tokenCount := |tokens|;
  }

  lemma SameBlocks(size: nat, a: Tokens, b: Tokens, i: nat)
    requires size > 0 && i < |a| / size && i < |b| / size
    ensures i * size <= (i + 1) * size <= |a| && (i + 1) * size <= |b|
    ensures a[..(i + 1) * size] == b[..(i + 1) * size] <==>
            Block(size, a, i) == Block(size, b, i) && a[..i * size] == b[..i * size]
  {
    BlockRange(size, i, |a|);
    BlockRange(size, i, |b|);
    var m, n := i * size, (i + 1) * size;
    assert a[..n] == a[..m] + a[m..n] && b[..n] == b[..m] + b[m..n];
    if a[..n] == b[..n] {
      assert a[..m] == a[..n][..m] && b[..m] == b[..n][..m];
      assert a[m..n] == a[..n][m..] && b[m..n] == b[..n][m..];
    }
  }

  lemma {:induction false} ChainedHashIff(h: Hasher, a: Tokens, i: nat, b: Tokens, j: nat)
    requires Injective(h) && i < |a| / h.blockSize && j < |b| / h.blockSize
    ensures (i + 1) * h.blockSize <= |a| && (j + 1) * h.blockSize <= |b|
    ensures ChainedHash(h, a, i) == ChainedHash(h, b, j) <==>
            i == j && a[..(i + 1) * h.blockSize] == b[..(j + 1) * h.blockSize]
  {
    var size := h.blockSize;
    BlockRange(size, i, |a|);
    BlockRange(size, j, |b|);
    if i > 0 && j > 0 {
      ChainedHashIff(h, a, i - 1, b, j - 1);
    }
    if i == j {
      SameBlocks(size, a, b, i);
    }
  }

  /** Two prompts share a key exactly where they agree from their starts up to and including that block. */
  lemma KeysShareIff(h: Hasher, a: Tokens, i: nat, b: Tokens, j: nat)
    requires Injective(h) && i < |Keys(h, a)| && j < |Keys(h, b)|
    ensures (i + 1) * h.blockSize <= |a| && (j + 1) * h.blockSize <= |b|
    ensures Keys(h, a)[i] == Keys(h, b)[j] <==>
            i == j && a[..(i + 1) * h.blockSize] == b[..(j + 1) * h.blockSize]
  {
    ChainedHashIff(h, a, i, b, j);
    var x, y := h.encode(ChainedHash(h, a, i)), h.encode(ChainedHash(h, b, j));
    if Keys(h, a)[i] == Keys(h, b)[j] {
      var prefix := |"vllm:block:"|;
      assert x == Keys(h, a)[i][prefix..] && y == Keys(h, b)[j][prefix..];
    }
  }
}
