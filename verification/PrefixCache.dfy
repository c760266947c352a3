/** The copying prefix cache: K/V of complete blocks under their hash chain, bounded and
    evicted in LRU order. */
module PrefixCaches {
  import opened Wrappers
  import opened Transformer
  import opened BlockPool
  import opened PoolSystem
  import opened PrefixIndex

  // ------------------------------------------------------------------- chain keys

  /** The keys of all complete blocks of `rest` behind `parent`. */
  function Keys(parent: Key, rest: seq<int>, bs: nat): (ks: seq<Key>)
    requires bs > 0
    decreases |rest|
  {
    if |rest| < bs then [] else
      var k := BlockHash(parent, rest[..bs]);
      [k] + Keys(k, rest[bs..], bs)
  }

  function KeyDepth(k: Key): nat {
    match k
    case Root => 0
    case Chain(parent, toks) => KeyDepth(parent) + 1
  }

  lemma {:induction false} KeyDepths(parent: Key, rest: seq<int>, bs: nat)
    requires bs > 0
    ensures forall i :: 0 <= i < |Keys(parent, rest, bs)| ==> KeyDepth(Keys(parent, rest, bs)[i]) == KeyDepth(parent) + i + 1
    decreases |rest|
  {
    if bs <= |rest| {
      KeyDepths(BlockHash(parent, rest[..bs]), rest[bs..], bs);
    }
  }

  /** A cache behind `done` keys of a chain: what is left to look at. */
  ghost predicate At(tokens: seq<int>, bs: nat, done: seq<Key>, parent: Key, start: nat) {
    && bs > 0 && start <= |tokens| && KeyTokens(parent) == tokens[..start]
    && Keys(Root, tokens, bs) == done + Keys(parent, tokens[start..], bs)
  }

  lemma FirstKey(tokens: seq<int>, bs: nat)
    requires bs > 0
    ensures At(tokens, bs, [], Root, 0)
  {
    assert tokens[0..] == tokens;
  }

  lemma NextKeyTokens(tokens: seq<int>, bs: nat, parent: Key, start: nat)
    requires ValidIds(tokens) && start + bs <= |tokens| && KeyTokens(parent) == tokens[..start]
    ensures KeyTokens(BlockHash(parent, tokens[start..start + bs])) == tokens[..start + bs]
  {
    LowIsSame(tokens[start..start + bs]);
  }

  lemma NextKeys(tokens: seq<int>, bs: nat, parent: Key, start: nat)
    requires bs > 0 && start + bs <= |tokens|
    ensures var k := BlockHash(parent, tokens[start..start + bs]);
      Keys(parent, tokens[start..], bs) == [k] + Keys(k, tokens[start + bs..], bs)
  {
    var rest := tokens[start..];
    assert rest[..bs] == tokens[start..start + bs] && rest[bs..] == tokens[start + bs..];
  }

  lemma NextKey(tokens: seq<int>, bs: nat, done: seq<Key>, parent: Key, start: nat, k: Key)
    requires At(tokens, bs, done, parent, start) && ValidIds(tokens) && start + bs <= |tokens|
    requires k == BlockHash(parent, tokens[start..start + bs])
    ensures At(tokens, bs, done + [k], k, start + bs)
  {
    NextKeyTokens(tokens, bs, parent, start);
    NextKeys(tokens, bs, parent, start);
    var later := Keys(k, tokens[start + bs..], bs);
    assert done + ([k] + later) == (done + [k]) + later;
  }

  lemma MissingKey(tokens: seq<int>, bs: nat, done: seq<Key>, parent: Key, start: nat)
    requires At(tokens, bs, done, parent, start) && start + bs <= |tokens|
    ensures var all := Keys(Root, tokens, bs);
      done <= all && |done| < |all| && all[|done|] == BlockHash(parent, tokens[start..start + bs])
  {
    NextKeys(tokens, bs, parent, start);
  }

  /** No key occurs twice along a chain. */
  lemma KeyIsNew(tokens: seq<int>, bs: nat, done: seq<Key>, parent: Key, start: nat, k: Key)
    requires At(tokens, bs, done + [k], k, start)
    ensures k !in done && |done| < |Keys(Root, tokens, bs)| && Keys(Root, tokens, bs)[|done|] == k
  {
    var all := Keys(Root, tokens, bs);
    KeyDepths(Root, tokens, bs);
    assert all[|done|] == (done + [k])[|done|];
    forall i | 0 <= i < |done| ensures done[i] != k {
      assert all[i] == (done + [k])[i];
    }
  }

  lemma LastKey(tokens: seq<int>, bs: nat, done: seq<Key>, parent: Key, start: nat)
    requires At(tokens, bs, done, parent, start) && |tokens| < start + bs
    ensures done == Keys(Root, tokens, bs)
  {
  }

  // ---------------------------------------------------------------- stored blocks

  /** One block: a list of entries per layer. */
  type Block = seq<seq<KV>>

  /** The block holds what its key promises. */
  ghost predicate Holds(k: Key, block: Block, depth: nat, bs: nat) {
    |block| == depth && forall l :: 0 <= l < depth ==> LayerHolds(k, block[l], l, bs)
  }

  ghost predicate LayerHolds(k: Key, entries: seq<KV>, l: nat, bs: nat) {
    && k.Chain? && |k.toks| == bs == |entries|
    && forall o :: 0 <= o < bs ==> entries[o] == Truth(KeyTokens(k.parent) + k.toks[..o + 1], l)
  }

  /** What a key promises of its block is a slice of the correct cache. */
  lemma HoldsIsSlice(tokens: seq<int>, parent: Key, start: nat, end: nat, l: nat, entries: seq<KV>)
    requires ValidIds(tokens) && start <= end <= |tokens| && KeyTokens(parent) == tokens[..start]
    ensures LayerHolds(BlockHash(parent, tokens[start..end]), entries, l, end - start) <==>
      entries == FullCache(tokens, l)[start..end]
  {
    var toks := tokens[start..end];
    LowIsSame(toks);
    forall o | 0 <= o < end - start
      ensures FullCache(tokens, l)[start..end][o] == Truth(tokens[..start] + toks[..o + 1], l)
    {
      assert tokens[..start] + toks[..o + 1] == tokens[..start + o + 1];
      FullCacheIsTruth(tokens, l, start + o);
    }
  }

  /** Layer `l` of the blocks, concatenated. */
  function CatLayer(blocks: seq<Block>, l: nat): seq<KV>
    requires forall i :: 0 <= i < |blocks| ==> l < |blocks[i]|
  {
    if blocks == [] then [] else CatLayer(blocks[..|blocks| - 1], l) + blocks[|blocks| - 1][l]
  }

  /** The blocks found so far make up the correct cache of the first `start` tokens. */
  ghost predicate Found(blocks: seq<Block>, tokens: seq<int>, start: nat, depth: nat) {
    && start <= |tokens| && (forall i :: 0 <= i < |blocks| ==> |blocks[i]| == depth)
    && forall l :: 0 <= l < depth ==> CatLayer(blocks, l) == FullCache(tokens, l)[..start]
  }

  lemma FoundOneMore(blocks: seq<Block>, tokens: seq<int>, parent: Key, start: nat, end: nat, block: Block, depth: nat)
    requires ValidIds(tokens) && start <= end <= |tokens| && KeyTokens(parent) == tokens[..start]
    requires Found(blocks, tokens, start, depth)
    requires Holds(BlockHash(parent, tokens[start..end]), block, depth, end - start)
    ensures Found(blocks + [block], tokens, end, depth)
  {
    forall l | 0 <= l < depth ensures CatLayer(blocks + [block], l) == FullCache(tokens, l)[..end] {
      assert (blocks + [block])[..|blocks|] == blocks;
      HoldsIsSlice(tokens, parent, start, end, l, block[l]);
      var full := FullCache(tokens, l);
      assert full[..end] == full[..start] + full[start..end];
    }
  }

  // -------------------------------------------------------------------- LRU order

  /** The last `n` elements, or all of them. */
  function Last<T>(s: seq<T>, n: nat): seq<T> {
    if |s| <= n then s else s[|s| - n..]
  }

  ghost predicate EndsWith<T>(s: seq<T>, t: seq<T>) {
    |t| <= |s| && s[|s| - |t|..] == t
  }

  /** The order after key `k` is used or stored. */
  function Renewed(order: seq<Key>, k: Key, max: nat): seq<Key> {
    if k in order then Remove(order, k) + [k]
    else if |order| + 1 > max then (order + [k])[1..]
    else order + [k]
  }

  lemma RenewedBelowBound(order: seq<Key>, ks: seq<Key>, k: Key, max: nat)
    requires |ks| < max && |order| <= max && EndsWith(order, ks) && k !in ks
    ensures EndsWith(Renewed(order, k, max), ks + [k])
  {
    var pre := order[..|order| - |ks|];
    assert order == pre + ks;
    if k in order {
      RemoveAppend(pre, ks, k);
      assert Renewed(order, k, max) == Remove(pre, k) + (ks + [k]);
    } else {
      assert order + [k] == pre + (ks + [k]);
      if |order| == max {
        assert (order + [k])[1..] == pre[1..] + (ks + [k]);
      }
    }
  }

  /** At the bound the order is the end of the chain and moves along it. */
  lemma RenewedAtBound(order: seq<Key>, ks: seq<Key>, k: Key, max: nat)
    requires |ks| >= max && order == Last(ks, max) && k !in ks
    ensures Renewed(order, k, max) == Last(ks + [k], max)
  {
    assert k !in order;
    assert order == ks[|ks| - max..];
    assert (order + [k])[1..] == (ks + [k])[|ks| + 1 - max..];
  }

  lemma RenewedEndsWith(order: seq<Key>, ks: seq<Key>, k: Key, max: nat)
    requires |order| <= max && EndsWith(order, Last(ks, max)) && k !in ks
    ensures EndsWith(Renewed(order, k, max), Last(ks + [k], max))
  {
    if |ks| < max {
      RenewedBelowBound(order, ks, k, max);
    } else {
      assert order == Last(ks, max);
      RenewedAtBound(order, ks, k, max);
    }
  }

  class PrefixCache {
    const blockSize: nat
    const maxBlocks: nat
    ghost const depth: nat
    var blocks: map<Key, Block>
    var order: seq<Key>

    /** Bounded, and every stored block holds what its key promises. */
    ghost predicate Valid()
      reads this
    {
      && blockSize >= 1 && |order| <= maxBlocks && NoDup(order)
      && (forall k :: k in order <==> k in blocks)
      && forall k :: k in blocks ==> Holds(k, blocks[k], depth, blockSize)
    }

    constructor (blockSize: int, maxBlocks: int, ghost depth: nat)
      ensures Valid() && blocks == map[] && this.depth == depth
      ensures this.blockSize == Max(blockSize, 1) && this.maxBlocks == Max(maxBlocks, 0)
    {
      this.blockSize, this.maxBlocks, this.depth := Max(blockSize, 1), Max(maxBlocks, 0), depth;
      blocks, order := map[], [];
    }

    /** `move_to_end`. */
    method Use(k: Key)
      requires Valid() && k in blocks
      modifies this`order
      ensures Valid() && order == Remove(old(order), k) + [k]
    {
      RemoveNoDup(order, k);
      order := Remove(order, k) + [k];
    }

    /** The state of `Match` behind the keys `found`. */
    ghost predicate Matching(tokens: seq<int>, found: seq<Key>, parent: Key, start: nat, run: seq<Block>)
      reads this
    {
      && Valid() && At(tokens, blockSize, found, parent, start) && Found(run, tokens, start, depth)
      && |run| == |found| && start == |found| * blockSize && forall k :: k in found ==> k in blocks
    }

    /** Adds the block of `child` to the run. */
    method TakeBlock(tokens: seq<int>, parent: Key, child: Key, start: nat, run: seq<Block>, ghost found: seq<Key>)
      returns (end: nat, run': seq<Block>, ghost found': seq<Key>)
      requires ValidIds(tokens) && start + blockSize <= |tokens| && Matching(tokens, found, parent, start, run)
      requires child == BlockHash(parent, tokens[start..start + blockSize]) && child in blocks
      modifies this`order
      ensures end == start + blockSize && Matching(tokens, found', child, end, run')
    {
      end, run', found' := start + blockSize, run + [blocks[child]], found + [child];
      NextKey(tokens, blockSize, found, parent, start, child);
      FoundOneMore(run, tokens, parent, start, end, blocks[child], depth);
      SuccTimes(|found|, blockSize);
      Use(child);
    }

    /** `match`: the longest run of stored blocks, and the K/V they hold: a correct cache of
        the first `matched` tokens. */
    method Match(tokens: seq<int>) returns (matched: nat, layers: seq<seq<KV>>, ghost found: seq<Key>)
      requires Valid() && ValidIds(tokens)
      modifies this`order
      ensures Valid() && matched <= |tokens| && matched == |found| * blockSize
      ensures var all := Keys(Root, tokens, blockSize);
        found <= all && (forall k :: k in found ==> k in blocks) && (found != all ==> all[|found|] !in blocks)
      ensures if matched == 0 then layers == [] else
        |layers| == depth && forall l :: 0 <= l < depth ==> layers[l] == FullCache(tokens, l)[..matched]
    {
      var parent, start := Root, 0;
      var run: seq<Block> := [];
      found := [];
      FirstKey(tokens, blockSize);
      while start + blockSize <= |tokens|
        invariant Matching(tokens, found, parent, start, run)
        decreases |tokens| - start
      {
        var child := BlockHash(parent, tokens[start..start + blockSize]);
        if child !in blocks {
          MissingKey(tokens, blockSize, found, parent, start);
          break;
        }
        start, run, found := TakeBlock(tokens, parent, child, start, run, found);
        parent := child;
      }
      if start + blockSize > |tokens| {
        LastKey(tokens, blockSize, found, parent, start);
      }
      matched := start;
      layers := Concatenate(tokens, run, start);
    }

    /** The layers of the blocks found, joined. */
    method Concatenate(ghost tokens: seq<int>, run: seq<Block>, ghost matched: nat) returns (layers: seq<seq<KV>>)
      requires Found(run, tokens, matched, depth)
      ensures if run == [] then layers == [] else
        |layers| == depth && forall l :: 0 <= l < depth ==> layers[l] == FullCache(tokens, l)[..matched]
    {
      layers := [];
      if run == [] {
        return;
      }
      for layer := 0 to |run[0]|
        invariant |layers| == layer && forall l :: 0 <= l < layer ==> layers[l] == FullCache(tokens, l)[..matched]
      {
        layers := layers + [CatLayer(run, layer)];
      }
    }

    /** Stores a block and evicts the oldest ones beyond the bound. */
    method Store(k: Key, block: Block)
      requires Valid() && k !in blocks && Holds(k, block, depth, blockSize)
      modifies this
      ensures Valid() && order == Renewed(old(order), k, maxBlocks)
      ensures forall j :: j in blocks ==> j == k || j in old(blocks)
    {
      blocks, order := blocks[k := block], order + [k];
      while |order| > maxBlocks
        invariant order == old(order) + [k] || (order == (old(order) + [k])[1..] && |order| == maxBlocks)
        invariant NoDup(order) && forall j :: j in order <==> j in blocks
        invariant forall j :: j in blocks ==> Holds(j, blocks[j], depth, blockSize)
        invariant forall j :: j in blocks ==> j == k || j in old(blocks)
        decreases |order|
      {
        var oldest := order[0];
        assert order == [oldest] + order[1..];
        order, blocks := order[1..], blocks - {oldest};
      }
    }

    /** The state of `Insert` behind the keys `ks`. */
    ghost predicate Inserting(known: seq<int>, ks: seq<Key>, parent: Key, start: nat)
      reads this
    {
      && Valid() && At(known, blockSize, ks, parent, start)
      && EndsWith(order, Last(ks, maxBlocks))
    }

    method Place(tokens: seq<int>, layers: seq<seq<KV>>, length: nat, ghost parent: Key, child: Key, start: nat)
      requires Valid() && ValidIds(tokens) && |layers| == depth > 0 && forall l :: 0 <= l < |layers| ==> Correct(tokens, layers, length, l)
      requires start + blockSize <= Min(Min(length, |tokens|), |layers[0]|) && KeyTokens(parent) == tokens[..start]
      requires child == BlockHash(parent, tokens[start..start + blockSize])
      modifies this
      ensures Valid() && order == Renewed(old(order), child, maxBlocks)
      ensures forall k :: k in blocks ==> k in old(blocks) || k == child
    {
      if child in blocks {
        Use(child);
      } else {
        var block := Cut(tokens, layers, parent, start, length);
        Store(child, block);
      }
    }

    /** Stores the block at `start` or makes it the newest. */
    method InsertBlock(tokens: seq<int>, layers: seq<seq<KV>>, length: nat, parent: Key, start: nat, ghost known: seq<int>, ghost ks: seq<Key>)
      returns (child: Key, end: nat, ghost ks': seq<Key>)
      requires ValidIds(tokens) && |layers| == depth > 0 && forall l :: 0 <= l < |layers| ==> Correct(tokens, layers, length, l)
      requires known == tokens[..Min(Min(length, |tokens|), |layers[0]|)]
      requires start + blockSize <= |known| && Inserting(known, ks, parent, start)
      modifies this
      ensures end == start + blockSize && Inserting(known, ks', child, end) && ks' == ks + [child]
      ensures forall k :: k in blocks ==> k in old(blocks) || k == child
    {
      hide Correct, Holds, EndsWith, Last, Renewed, KeyTokens;
      child, end := BlockHash(parent, tokens[start..start + blockSize]), start + blockSize;
      SliceOfPrefix(tokens, |known|, start, end);
      SliceOfPrefix(tokens, |known|, 0, start);
      ks' := ks + [child];
      NextKey(known, blockSize, ks, parent, start, child);
      KeyIsNew(known, blockSize, ks, child, end, child);
      RenewedEndsWith(order, ks, child, maxBlocks);
      Place(tokens, layers, length, parent, child, start);
    }

    /** `insert`: the complete blocks of a correct cache.  The newest keys are then the last
        ones of its chain, so a match finds every block unless the bound forbids it. */
    method Insert(tokens: seq<int>, layers: seq<seq<KV>>, length: nat) returns (ghost ks: seq<Key>)
      requires Valid() && ValidIds(tokens) && (layers != [] ==> |layers| == depth)
      requires forall l :: 0 <= l < |layers| ==> Correct(tokens, layers, length, l)
      modifies this
      ensures Valid() && (layers != [] ==> EndsWith(order, Last(ks, maxBlocks)))
      ensures ks == if layers == [] then [] else Keys(Root, tokens[..Min(Min(length, |tokens|), |layers[0]|)], blockSize)
      ensures forall k :: k in blocks ==> k in old(blocks) || k in ks
    {
      ks := [];
      if layers == [] {
        return;
      }
      var n: nat := Min(Min(length, |tokens|), |layers[0]|);
      ghost var known := tokens[..n];
      var parent, start := Root, 0;
      FirstKey(known, blockSize);
      while start + blockSize <= n
        invariant start <= n && Inserting(known, ks, parent, start)
        invariant forall k :: k in blocks ==> k in old(blocks) || k in ks
        decreases n - start
      {
        parent, start, ks := InsertBlock(tokens, layers, length, parent, start, known, ks);
      }
      LastKey(known, blockSize, ks, parent, start);
    }

    /** The block at `start` of every layer. */
    method Cut(ghost tokens: seq<int>, layers: seq<seq<KV>>, ghost parent: Key, start: nat, ghost length: nat)
      returns (block: Block)
      requires ValidIds(tokens) && |layers| == depth > 0 && blockSize >= 1
      requires start + blockSize <= Min(Min(length, |tokens|), |layers[0]|) && KeyTokens(parent) == tokens[..start]
      requires forall l :: 0 <= l < |layers| ==> Correct(tokens, layers, length, l)
      ensures Holds(BlockHash(parent, tokens[start..start + blockSize]), block, depth, blockSize)
    {
      block := [];
      for l := 0 to |layers|
        invariant |block| == l
        invariant forall k :: 0 <= k < l ==> LayerHolds(BlockHash(parent, tokens[start..start + blockSize]), block[k], k, blockSize)
      {
        CorrectSlice(tokens, layers, length, l, start, start + blockSize);
        HoldsIsSlice(tokens, parent, start, start + blockSize, l, layers[l][start..start + blockSize]);
        block := block + [layers[l][start..start + blockSize]];
      }
    }
  }

  /** Layer `l` is as wide as layer 0 and correct as far as tokens and length reach. */
  ghost predicate Correct(tokens: seq<int>, layers: seq<seq<KV>>, length: nat, l: nat)
    requires l < |layers|
  {
    var n := Min(Min(length, |tokens|), |layers[0]|);
    |layers[l]| == |layers[0]| && layers[l][..n] == FullCache(tokens, l)[..n]
  }

  lemma CorrectSlice(tokens: seq<int>, layers: seq<seq<KV>>, length: nat, l: nat, start: nat, end: nat)
    requires l < |layers| && Correct(tokens, layers, length, l)
    requires start <= end <= Min(Min(length, |tokens|), |layers[0]|)
    ensures layers[l][start..end] == FullCache(tokens, l)[start..end]
  {
    var n := Min(Min(length, |tokens|), |layers[0]|);
    SliceOfPrefix(layers[l], n, start, end);
    SliceOfPrefix(FullCache(tokens, l), n, start, end);
  }

  lemma SliceOfPrefix<T>(s: seq<T>, n: nat, a: nat, b: nat)
    requires a <= b <= n <= |s|
    ensures s[..n][a..b] == s[a..b]
  {
  }
}
