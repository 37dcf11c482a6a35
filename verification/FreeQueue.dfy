/** The free-block queue of vllm/v1/core/kv_cache_utils.py: a doubly linked list threaded
    through the blocks themselves, so that a block in the middle can be taken out in
    constant time.  `list` is the queue as a sequence; every operation is the obvious
    operation on that sequence. */
module FreeQueues {
  import opened Sequences


  class KVCacheBlock {
    const blockId: nat
    var prev: KVCacheBlock?
    var next: KVCacheBlock?

    constructor (blockId: nat)
      ensures this.blockId == blockId && prev == null && next == null
    {
      this.blockId, prev, next := blockId, null, null;
    }
  }

  function At(s: seq<KVCacheBlock>, i: int): KVCacheBlock? {
    if 0 <= i < |s| then s[i] else null
  }

  /** The block at position `i` points to its neighbours. */
  ghost predicate Linked(s: seq<KVCacheBlock>, i: nat)
    requires i < |s|
    reads s[i]
  {
    s[i].prev == At(s, i - 1) && s[i].next == At(s, i + 1)
  }

  ghost predicate Loose(b: KVCacheBlock)
    reads b
  {
    b.prev == null && b.next == null
  }

  function Without(s: seq<KVCacheBlock>, i: nat): (r: seq<KVCacheBlock>)
    requires i < |s|
    ensures |r| == |s| - 1
  {
    s[..i] + s[i + 1..]
  }

  lemma WithoutFacts(s: seq<KVCacheBlock>, i: nat)
    requires i < |s| && NoDup(s)
    ensures |Without(s, i)| == |s| - 1 && NoDup(Without(s, i))
    ensures s[i] !in Without(s, i) && forall k :: 0 <= k < |s| - 1 ==> Without(s, i)[k] in s
    ensures forall b :: b in s && b != s[i] ==> b in Without(s, i)
  {
    var r := Without(s, i);
    forall b | b in s && b != s[i]
      ensures b in r
    {
      var k :| 0 <= k < |s| && s[k] == b;
      assert r[if k < i then k else k - 1] == s[k];
    }
  }

  /** What is first and last without the block at position `i`. */
  lemma Ends(s: seq<KVCacheBlock>, i: nat)
    requires i < |s| && NoDup(s)
    ensures At(Without(s, i), 0) == if At(s, 0) == s[i] then At(s, i + 1) else At(s, 0)
    ensures At(Without(s, i), |s| - 2) == if At(s, |s| - 1) == s[i] then At(s, i - 1) else At(s, |s| - 1)
  {
  }

  lemma Neighbours(s: seq<KVCacheBlock>, i: nat, k: nat)
    requires i < |s| && k < |s| && k != i && NoDup(s)
    ensures s[k] != s[i] && (s[k] == At(s, i - 1) <==> k == i - 1) && (s[k] == At(s, i + 1) <==> k == i + 1)
  {
  }

  /** A block keeps its links, except that the neighbours of the removed one skip it. */
  lemma StillLinked(s: seq<KVCacheBlock>, i: nat, k: nat, w: nat)
    requires i < |s| && k < |s| - 1 && w == if k < i then k else k + 1
    requires SkipsAt(s, i, w)
    ensures Linked(Without(s, i), k)
  {
  }

  ghost predicate Chained(s: seq<KVCacheBlock>)
    reads s
  {
    forall k :: 0 <= k < |s| ==> Linked(s, k)
  }

  /** The links when the neighbours of the block at position `i` have been linked to each
      other and the block itself still points to them. */
  ghost predicate Skipping(s: seq<KVCacheBlock>, i: nat)
    reads s
    requires i < |s|
  {
    Linked(s, i) && forall k :: 0 <= k < |s| && k != i ==> SkipsAt(s, i, k)
  }

  ghost predicate SkipsAt(s: seq<KVCacheBlock>, i: nat, k: nat)
    requires i < |s| && k < |s|
    reads s[k]
  {
    && s[k].prev == At(s, if k == i + 1 then i - 1 else k - 1)
    && s[k].next == At(s, if k == i - 1 then i + 1 else k + 1)
  }

  /** First half of `remove`. */
  method Unlink(block: KVCacheBlock, ghost s: seq<KVCacheBlock>, ghost i: nat)
    requires i < |s| && s[i] == block && NoDup(s) && Chained(s)
    modifies s
    ensures Skipping(s, i) && block.prev == At(s, i - 1) && block.next == At(s, i + 1)
  {
    hide NoDup;
    assert Linked(s, i);
    assert i > 0 ==> Linked(s, i - 1);
    assert i + 1 < |s| ==> Linked(s, i + 1);
    Apart(s, i);
    if block.prev != null {
      block.prev.next := block.next;
    }
    if block.next != null {
      block.next.prev := block.prev;
    }
    forall k | 0 <= k < |s| && k != i
      ensures SkipsAt(s, i, k)
    {
      Neighbours(s, i, k);
      assert old(Linked(s, k));
    }
  }

  lemma Apart(s: seq<KVCacheBlock>, i: nat)
    requires i < |s| && NoDup(s)
    ensures At(s, i - 1) != s[i] && At(s, i + 1) != s[i] && (At(s, i - 1) == At(s, i + 1) ==> At(s, i - 1) == null)
  {
  }

  /** Second half of `remove`. */
  method Detach(block: KVCacheBlock, ghost s: seq<KVCacheBlock>, ghost i: nat)
    requires i < |s| && s[i] == block && NoDup(s) && Skipping(s, i)
    modifies block
    ensures Loose(block) && Chained(Without(s, i))
  {
    hide NoDup, Without;
    block.prev, block.next := null, null;
    WithoutFacts(s, i);
    forall k | 0 <= k < |Without(s, i)|
      ensures Linked(Without(s, i), k)
    {
      var w := if k < i then k else k + 1;
      Neighbours(s, i, w);
      assert old(SkipsAt(s, i, w));
      StillLinked(s, i, k, w);
    }
  }

  class FreeKVCacheBlockQueue {
    var numFreeBlocks: int
    var head: KVCacheBlock?
    var tail: KVCacheBlock?
    ghost var list: seq<KVCacheBlock>
    ghost const pool: set<KVCacheBlock>

    ghost predicate Valid()
      reads this, pool
    {
      && numFreeBlocks == |list| && NoDup(list)
      && (forall i :: 0 <= i < |list| ==> list[i] in pool)
      && head == At(list, 0) && tail == At(list, |list| - 1)
      && Chained(list)
      && (forall b :: b in pool && b !in list ==> Loose(b))
    }

    /** All blocks of the pool, in order of their ids; the source indexes the first one
        and so needs at least one. */
    constructor (blocks: seq<KVCacheBlock>)
      requires blocks != [] && NoDup(blocks)
      requires forall i :: 0 <= i < |blocks| ==> Loose(blocks[i])
      modifies set i | 0 <= i < |blocks| :: blocks[i]
      ensures Valid() && list == blocks && pool == set i | 0 <= i < |blocks| :: blocks[i]
    {
      numFreeBlocks := |blocks|;
      head, tail := blocks[0], blocks[|blocks| - 1];
      list, pool := blocks, set i | 0 <= i < |blocks| :: blocks[i];
      new;
      for i := 0 to |blocks|
        invariant list == blocks && pool == (set k | 0 <= k < |blocks| :: blocks[k]) && numFreeBlocks == |blocks|
        invariant head == blocks[0] && tail == blocks[|blocks| - 1]
        invariant forall k :: 0 <= k < i ==> Linked(blocks, k)
        invariant forall k :: i <= k < |blocks| ==> Loose(blocks[k])
      {
        if i > 0 {
          blocks[i].prev := blocks[i - 1];
        }
        if i < |blocks| - 1 {
          blocks[i].next := blocks[i + 1];
        }
        assert Linked(blocks, i);
      }
    }

    /** `popleft`: the block at the front, or the error of an empty queue. */
    method PopLeft() returns (block: KVCacheBlock?)
      requires Valid()
      modifies this, pool
      ensures Valid()
      ensures block == null <==> old(list) == []
      ensures if block == null then list == old(list) else block == old(list)[0] && list == old(list)[1..]
    {
      if head == null {
        return null;
      }
      block := head;
      ghost var i := Remove(block);
      assert i == 0;
    }

    /** `remove`: takes a queued block out, wherever it is. */
    method Remove(block: KVCacheBlock) returns (ghost i: nat)
      requires Valid() && block in list
      modifies this, pool
      ensures Valid() && Loose(block)
      ensures i < |old(list)| && old(list)[i] == block && list == Without(old(list), i)
    {
      hide Linked, Without, NoDup, At, Chained, Skipping, Loose;
      i :| i < |list| && list[i] == block;
      Ends(list, i);
      WithoutFacts(list, i);
      Unlink(block, list, i);
      if block == head {
        head := block.next;
      }
      if block == tail {
        tail := block.prev;
      }
      Detach(block, list, i);
      numFreeBlocks := numFreeBlocks - 1;
      list := Without(list, i);
    }

    /** `append`: puts a block that is not queued at the end. */
    method Append(block: KVCacheBlock)
      requires Valid() && block in pool && block !in list
      modifies this, pool
      ensures Valid() && list == old(list) + [block]
    {
      ghost var before := list;
      if tail != null {
        assert Linked(before, |before| - 1);
        tail.next := block;
        block.prev := tail;
        tail := block;
      } else {
        assert before == [];
        head, tail := block, block;
      }
      block.next := null;
      numFreeBlocks := numFreeBlocks + 1;
      list := before + [block];
      forall k | 0 <= k < |list|
        ensures Linked(list, k)
      {
        if k < |before| {
          assert old(Linked(before, k));
        }
      }
    }

    /** `get_all_free_blocks`: following the links from the head lists the queue. */
    method GetAllFreeBlocks() returns (ret: seq<KVCacheBlock>)
      requires Valid()
      ensures ret == list && |ret| == numFreeBlocks
    {
      ret := [];
      var curr := head;
      while curr != null
        invariant |ret| <= |list| && ret == list[..|ret|] && curr == At(list, |ret|)
        decreases |list| - |ret|
      {
        assert Linked(list, |ret|);
        ret := ret + [curr];
        curr := curr.next;
      }
    }
  }
}
