/** The block keys of vllm/v1/core/kv_cache_utils.py: each full block of a request is
    known by a hash that is chained over all blocks before it, its own tokens and its
    extra keys (the images that overlap it).

    The hash function is a parameter.  Under the assumption that it has no collisions, a
    key stands for the whole token prefix that ends with its block, but only for the
    extra keys of that last block. */
module BlockHashes {
  import opened Options
  import opened BlockPools
  import opened ExtraKeys

  type Hash = (Option<int>, seq<int>) -> int

  ghost predicate CollisionFree(h: Hash) {
    forall a, b, x, y :: h(a, x) == h(b, y) ==> a == b && x == y
  }

  /** `n` tokens are whole blocks. */
  ghost predicate WholeBlocks(n: nat, blockSize: nat) {
    n == 0 || (0 < blockSize <= n && WholeBlocks(n - blockSize, blockSize))
  }

  lemma {:induction false} WholeBlocksAt(i: nat, blockSize: nat)
    requires blockSize > 0
    ensures WholeBlocks(i * blockSize, blockSize)
  {
    if i > 0 {
      WholeBlocksAt(i - 1, blockSize);
      assert i * blockSize - blockSize == (i - 1) * blockSize;
    }
  }

  /** The hash value of the last block of a prefix that consists of whole blocks. */
  function ChainedHash(h: Hash, s: seq<int>, blockSize: nat): Option<int>
    requires blockSize > 0
  {
    if |s| < blockSize then None
    else Some(h(ChainedHash(h, s[..|s| - blockSize], blockSize), s[|s| - blockSize..]))
  }

  /** The key of the last block of such a prefix. */
  function KeyOf(h: Hash, s: seq<int>, extra: Extra, blockSize: nat): Key
    requires 0 < blockSize <= |s|
  {
    Key(ChainedHash(h, s, blockSize).value, s[|s| - blockSize..], extra)
  }

  lemma {:induction false} ChainedHashInjective(h: Hash, s: seq<int>, t: seq<int>, blockSize: nat)
    requires CollisionFree(h) && blockSize > 0 && WholeBlocks(|s|, blockSize) && WholeBlocks(|t|, blockSize)
    requires ChainedHash(h, s, blockSize) == ChainedHash(h, t, blockSize)
    ensures s == t
    decreases |s|
  {
    if |s| >= blockSize {
      var m, n := |s| - blockSize, |t| - blockSize;
      assert h(ChainedHash(h, s[..m], blockSize), s[m..]) == h(ChainedHash(h, t[..n], blockSize), t[n..]);
      ChainedHashInjective(h, s[..m], t[..n], blockSize);
      assert s == s[..m] + s[m..] && t == t[..n] + t[n..];
    }
  }

  /** Two keys are equal exactly when the token prefixes and the extra keys of the last
      blocks are. */
  lemma KeysEqualIff(h: Hash, s: seq<int>, e: Extra, t: seq<int>, f: Extra, blockSize: nat)
    requires CollisionFree(h) && 0 < blockSize <= |s| && blockSize <= |t|
    requires WholeBlocks(|s|, blockSize) && WholeBlocks(|t|, blockSize)
    ensures KeyOf(h, s, e, blockSize) == KeyOf(h, t, f, blockSize) <==> s == t && e == f
  {
    if KeyOf(h, s, e, blockSize) == KeyOf(h, t, f, blockSize) {
      ChainedHashInjective(h, s, t, blockSize);
    }
  }

  /** The first `n` blocks of a request. */
  function FirstBlocks(tokens: seq<int>, n: nat, blockSize: nat): seq<int>
    requires n * blockSize <= |tokens|
  {
    tokens[..n * blockSize]
  }

  /** A key at its place in the chain of a request. */
  ghost predicate KeyAt(h: Hash, key: Key, tokens: seq<int>, extra: Extra, i: nat, blockSize: nat) {
    && 0 < blockSize && (i + 1) * blockSize <= |tokens| && blockSize <= (i + 1) * blockSize
    && key == KeyOf(h, FirstBlocks(tokens, i + 1, blockSize), extra, blockSize)
  }

  /** What the keys of a request are made from: its tokens, its images, and how many of its
      blocks were hashed from scratch; the keys of the others were added later. */
  datatype Content = Content(tokens: seq<int>, images: seq<Image>, split: nat)

  function ExtraAt(c: Content, blockSize: nat, i: nat): Extra {
    if i < c.split then Scratch(c.images, blockSize, i) else Late(c.images, blockSize, i)
  }

  /** Keys of a request's first full blocks. */
  ghost predicate IsChain(h: Hash, keys: seq<Key>, c: Content, blockSize: nat) {
    && 0 < blockSize && |keys| * blockSize <= |c.tokens|
    && forall i :: 0 <= i < |keys| ==> KeyAt(h, keys[i], c.tokens, ExtraAt(c, blockSize, i), i, blockSize)
  }

  /** The keys of two requests, wherever they stand in their chains: equal exactly when
      they are at the same place, behind the same tokens, with the same extra keys. */
  lemma ChainKeysEqualIff(h: Hash, k: Key, tokens: seq<int>, e: Extra, i: nat,
                          l: Key, tokens': seq<int>, f: Extra, j: nat, blockSize: nat)
    requires CollisionFree(h) && KeyAt(h, k, tokens, e, i, blockSize) && KeyAt(h, l, tokens', f, j, blockSize)
    ensures k == l <==>
            i == j && FirstBlocks(tokens, i + 1, blockSize) == FirstBlocks(tokens', j + 1, blockSize) && e == f
  {
    WholeBlocksAt(i + 1, blockSize);
    WholeBlocksAt(j + 1, blockSize);
    KeysEqualIff(h, FirstBlocks(tokens, i + 1, blockSize), e, FirstBlocks(tokens', j + 1, blockSize), f, blockSize);
    if k == l {
      SameMultiple(i + 1, j + 1, blockSize);
    }
  }

  lemma SameMultiple(a: nat, b: nat, d: nat)
    requires d > 0 && a * d == b * d
    ensures a == b
  {
    assert (a - b) * d == 0;
  }

  /** One link: the key of a block from the hash value of the block before it. */
  lemma NextLink(h: Hash, tokens: seq<int>, i: nat, blockSize: nat)
    requires blockSize > 0 && (i + 1) * blockSize <= |tokens|
    ensures i * blockSize <= |tokens| && (i + 1) * blockSize == i * blockSize + blockSize >= blockSize
    ensures ChainedHash(h, FirstBlocks(tokens, i + 1, blockSize), blockSize) ==
            Some(h(ChainedHash(h, FirstBlocks(tokens, i, blockSize), blockSize),
                   tokens[i * blockSize..(i + 1) * blockSize]))
    ensures FirstBlocks(tokens, i + 1, blockSize)[i * blockSize..] == tokens[i * blockSize..(i + 1) * blockSize]
  {
    var s := FirstBlocks(tokens, i + 1, blockSize);
    assert (i + 1) * blockSize == i * blockSize + blockSize;
    assert s[..|s| - blockSize] == FirstBlocks(tokens, i, blockSize);
    assert s[|s| - blockSize..] == tokens[i * blockSize..(i + 1) * blockSize];
  }

  /** `hash_request_tokens`: the keys of all full blocks, the last, partial block left out;
      an error when positions and hashes of the images do not match. */
  method HashRequestTokens(h: Hash, tokens: seq<int>, positions: seq<(nat, nat)>, hashes: seq<string>, blockSize: nat)
    returns (keys: Option<seq<Key>>)
    requires blockSize > 0
    ensures keys.None? <==> positions != [] && |positions| != |hashes|
    ensures keys.Some? ==>
              var images := if positions == [] then [] else Images(positions, hashes);
              && IsChain(h, keys.value, Content(tokens, images, |keys.value|), blockSize)
              && |keys.value| * blockSize <= |tokens| < (|keys.value| + 1) * blockSize
  {
    if positions != [] && |positions| != |hashes| {
      return None;
    }
    var ks := HashBlocks(h, tokens, if positions == [] then [] else Images(positions, hashes), blockSize);
    keys := Some(ks);
  }

  method HashBlocks(h: Hash, tokens: seq<int>, images: seq<Image>, blockSize: nat) returns (keys: seq<Key>)
    requires blockSize > 0
    ensures IsChain(h, keys, Content(tokens, images, |keys|), blockSize)
    ensures |keys| * blockSize <= |tokens| < (|keys| + 1) * blockSize
  {
    hide Generate, Running, KeyOf;
    keys := [];
    var parent: Option<int> := None;
    var index, start := 0, 0;
    FirstBlocksEmpty(h, tokens, blockSize);
    RunningStart(images, blockSize);
    while start < |tokens|
      invariant start == |keys| * blockSize && index == Running(images, blockSize, |keys|)
      invariant IsChain(h, keys, Content(tokens, images, |keys|), blockSize)
      invariant parent == ChainedHash(h, FirstBlocks(tokens, |keys|, blockSize), blockSize)
      decreases |tokens| - start
    {
      ghost var i := |keys|;
      assert (i + 1) * blockSize == start + blockSize;
      if |tokens| - start < blockSize {
        break;
      }
      NextLink(h, tokens, i, blockSize);
      NextExtra(images, blockSize, i);
      var block := tokens[start..start + blockSize];
      var generated := Generate(images, start, start + blockSize, index).value;
      var key := Key(h(parent, block), block, generated.extra);
      LinkIsKey(h, tokens, generated.extra, i, blockSize);
      ScratchGrows(h, keys, tokens, images, key, blockSize);
      keys := keys + [key];
      parent := Some(key.hashValue);
      index := generated.index;
      start := start + blockSize;
    }
    assert (|keys| + 1) * blockSize == start + blockSize;
  }

  lemma RunningStart(images: seq<Image>, blockSize: nat)
    ensures Running(images, blockSize, 0) == 0
  {
  }

  lemma NextExtra(images: seq<Image>, blockSize: nat, i: nat)
    ensures var g := Generate(images, i * blockSize, (i + 1) * blockSize, Running(images, blockSize, i));
            && g.Ok? && g.value.extra == Scratch(images, blockSize, i)
            && g.value.index == Running(images, blockSize, i + 1)
  {
    CollectedIndex(images, i * blockSize, (i + 1) * blockSize, Running(images, blockSize, i));
  }

  lemma {:induction false} CollectedIndex(images: seq<Image>, start: nat, end: nat, k: nat)
    ensures Collected(images, start, end, k).1 >= k
    decreases |images| - k
  {
    if k < |images| && end > images[k].offset && (start > images[k].End() || end >= images[k].End()) {
      CollectedIndex(images, start, end, k + 1);
    }
  }

  lemma ScratchGrows(h: Hash, keys: seq<Key>, tokens: seq<int>, images: seq<Image>, key: Key, blockSize: nat)
    requires IsChain(h, keys, Content(tokens, images, |keys|), blockSize)
    requires KeyAt(h, key, tokens, Scratch(images, blockSize, |keys|), |keys|, blockSize)
    ensures IsChain(h, keys + [key], Content(tokens, images, |keys| + 1), blockSize)
  {
    hide KeyAt, Scratch, Late;
    var c, d, all := Content(tokens, images, |keys|), Content(tokens, images, |keys| + 1), keys + [key];
    forall i | 0 <= i < |all|
      ensures KeyAt(h, all[i], tokens, ExtraAt(d, blockSize, i), i, blockSize)
    {
      if i < |keys| {
        assert KeyAt(h, keys[i], tokens, ExtraAt(c, blockSize, i), i, blockSize);
      }
    }
    KeyFits(h, key, tokens, Scratch(images, blockSize, |keys|), |keys|, blockSize);
  }

  lemma KeyFits(h: Hash, key: Key, tokens: seq<int>, extra: Extra, i: nat, blockSize: nat)
    requires KeyAt(h, key, tokens, extra, i, blockSize)
    ensures (i + 1) * blockSize <= |tokens|
  {
  }

  /** `_cache_full_blocks`, the keys: those the request knows are taken over, the others
      are computed from the hash of the block before them and from the last image. */
  method ExtendKeys(h: Hash, known: seq<Key>, first: nat, prev: Option<Key>, c: Content, upTo: nat, blockSize: nat)
    returns (keys: seq<Key>)
    requires blockSize > 0 && IsChain(h, known, c, blockSize) && c.split <= |known|
    requires first <= |known| && (if first == 0 then prev == None else prev == Some(known[first - 1]))
    requires first <= upTo && upTo * blockSize <= |c.tokens|
    ensures IsChain(h, keys, c, blockSize)
    ensures known <= keys && |keys| == if upTo <= |known| then |known| else upTo
  {
    hide KeyOf, Scratch, Generate;
    keys := known;
    var parent: Option<int> := None;
    if prev.Some? {
      parent := Some(prev.value.hashValue);
      KeyCarriesHash(h, known[first - 1], c.tokens, ExtraAt(c, blockSize, first - 1), first - 1, blockSize);
    }
    FirstBlocksEmpty(h, c.tokens, blockSize);
    for i := first to upTo
      invariant known <= keys && |keys| == if i <= |known| then |known| else i
      invariant IsChain(h, keys, c, blockSize)
      invariant i * blockSize <= |c.tokens| && parent == ChainedHash(h, FirstBlocks(c.tokens, i, blockSize), blockSize)
    {
      Fits(i + 1, upTo, blockSize);
      NextLink(h, c.tokens, i, blockSize);
      if i < |known| {
        KeyCarriesHash(h, keys[i], c.tokens, ExtraAt(c, blockSize, i), i, blockSize);
        parent := Some(keys[i].hashValue);
      } else {
        var block := c.tokens[i * blockSize..(i + 1) * blockSize];
        LateExists(c.images, blockSize, i);
        var extra := Generate(c.images, i * blockSize, (i + 1) * blockSize, -1).value.extra;
        var key := Key(h(parent, block), block, extra);
        LinkIsKey(h, c.tokens, extra, i, blockSize);
        keys := keys + [key];
        parent := Some(key.hashValue);
      }
    }
  }

  lemma LateExists(images: seq<Image>, blockSize: nat, i: nat)
    ensures var g := Generate(images, i * blockSize, (i + 1) * blockSize, -1);
            g.Ok? && g.value.extra == Late(images, blockSize, i)
  {
  }

  /** The extended keys are those that hashing from scratch would give exactly when the two
      ways of generating extra keys agree on every added block. */
  lemma ExtendedIsScratchIff(h: Hash, keys: seq<Key>, scratch: seq<Key>, c: Content, blockSize: nat)
    requires IsChain(h, keys, c, blockSize) && IsChain(h, scratch, c.(split := |scratch|), blockSize)
    requires |keys| == |scratch|
    requires InOrder(c.images) && forall i :: c.split <= i < |keys| ==> PastImages(c.images, blockSize, i)
    ensures keys == scratch <==> forall i :: c.split <= i < |keys| ==> LateAgrees(c.images, blockSize, i)
  {
    hide KeyOf, Scratch, Late, LateAgrees;
    var d := c.(split := |scratch|);
    forall i | 0 <= i < |keys|
      ensures keys[i] == scratch[i] <==> (c.split <= i ==> LateAgrees(c.images, blockSize, i))
    {
      assert KeyAt(h, keys[i], c.tokens, ExtraAt(c, blockSize, i), i, blockSize);
      assert KeyAt(h, scratch[i], c.tokens, ExtraAt(d, blockSize, i), i, blockSize);
      SameKeyIff(h, keys[i], scratch[i], c.tokens, ExtraAt(c, blockSize, i), ExtraAt(d, blockSize, i), i, blockSize);
      if c.split <= i {
        LateIsScratchIff(c.images, blockSize, i);
      }
    }
  }

  /** For the same tokens two keys at one place are equal exactly when their extra keys are. */
  lemma SameKeyIff(h: Hash, k: Key, l: Key, tokens: seq<int>, e: Extra, f: Extra, i: nat, blockSize: nat)
    requires KeyAt(h, k, tokens, e, i, blockSize) && KeyAt(h, l, tokens, f, i, blockSize)
    ensures k == l <==> e == f
  {
  }

  lemma Fits(a: nat, b: nat, d: nat)
    requires a <= b
    ensures a * d <= b * d
  {
    assert b * d == a * d + (b - a) * d;
  }

  lemma FirstBlocksEmpty(h: Hash, tokens: seq<int>, blockSize: nat)
    requires blockSize > 0
    ensures ChainedHash(h, FirstBlocks(tokens, 0, blockSize), blockSize) == None
  {
  }

  lemma KeyCarriesHash(h: Hash, key: Key, tokens: seq<int>, extra: Extra, i: nat, blockSize: nat)
    requires KeyAt(h, key, tokens, extra, i, blockSize)
    ensures ChainedHash(h, FirstBlocks(tokens, i + 1, blockSize), blockSize) == Some(key.hashValue)
  {
  }

  lemma LinkIsKey(h: Hash, tokens: seq<int>, extra: Extra, i: nat, blockSize: nat)
    requires blockSize > 0 && (i + 1) * blockSize <= |tokens|
    ensures i * blockSize <= (i + 1) * blockSize
    ensures var block := tokens[i * blockSize..(i + 1) * blockSize];
            KeyAt(h, Key(h(ChainedHash(h, FirstBlocks(tokens, i, blockSize), blockSize), block), block, extra),
                  tokens, extra, i, blockSize)
  {
    NextLink(h, tokens, i, blockSize);
  }

  /** New tokens only add keys. */
  lemma ChainGrows(h: Hash, keys: seq<Key>, c: Content, more: seq<int>, blockSize: nat)
    requires IsChain(h, keys, c, blockSize)
    ensures IsChain(h, keys, c.(tokens := c.tokens + more), blockSize)
  {
    hide Scratch, Late, KeyOf;
    var d := c.(tokens := c.tokens + more);
    forall i | 0 <= i < |keys|
      ensures KeyAt(h, keys[i], d.tokens, ExtraAt(d, blockSize, i), i, blockSize)
    {
      assert KeyAt(h, keys[i], c.tokens, ExtraAt(c, blockSize, i), i, blockSize);
      assert FirstBlocks(d.tokens, i + 1, blockSize) == FirstBlocks(c.tokens, i + 1, blockSize);
    }
  }

  /** Two chains of one request agree: the shorter one is a prefix of the longer one. */
  lemma ChainsAgree(h: Hash, keys: seq<Key>, longer: seq<Key>, c: Content, blockSize: nat)
    requires IsChain(h, keys, c, blockSize) && IsChain(h, longer, c, blockSize) && |keys| <= |longer|
    ensures keys <= longer
  {
    hide Scratch, Late;
    forall i | 0 <= i < |keys|
      ensures keys[i] == longer[i]
    {
      assert KeyAt(h, keys[i], c.tokens, ExtraAt(c, blockSize, i), i, blockSize);
      assert KeyAt(h, longer[i], c.tokens, ExtraAt(c, blockSize, i), i, blockSize);
    }
  }

  /** What a key does not say.  The extra keys are not part of the chained hash: of two
      requests with the same tokens the keys of a block are equal exactly when the extra
      keys of that one block are, whatever images came before. */
  lemma ImagesAreForgotten(h: Hash, keys: seq<Key>, c: Content, keys': seq<Key>, c': Content, blockSize: nat)
    requires IsChain(h, keys, c, blockSize) && IsChain(h, keys', c', blockSize) && |keys| == |keys'|
    requires c'.tokens == c.tokens
    ensures forall i :: 0 <= i < |keys| ==>
              (keys[i] == keys'[i] <==> ExtraAt(c, blockSize, i) == ExtraAt(c', blockSize, i))
  {
    hide Scratch, Late, KeyOf;
    forall i | 0 <= i < |keys|
      ensures keys[i] == keys'[i] <==> ExtraAt(c, blockSize, i) == ExtraAt(c', blockSize, i)
    {
      assert KeyAt(h, keys[i], c.tokens, ExtraAt(c, blockSize, i), i, blockSize);
      assert KeyAt(h, keys'[i], c.tokens, ExtraAt(c', blockSize, i), i, blockSize);
      SameKeyIff(h, keys[i], keys'[i], c.tokens, ExtraAt(c, blockSize, i), ExtraAt(c', blockSize, i), i, blockSize);
    }
  }
}
