/** The prefix cache over block ids: matching a prompt against the hash chain of complete
    blocks, registering finished sequences, and evicting the least recently used keys. */
module PrefixIndex {
  import opened Wrappers
  import opened Transformer
  import opened BlockPool
  import opened PoolSystem
  import opened PoolSteps
  import opened PagedCaches
  import opened PoolSharing

  /** Token ids fit the 32 bits that are hashed. */
  ghost predicate ValidIds(tokens: seq<int>) {
    forall i :: 0 <= i < |tokens| ==> 0 <= tokens[i] < TWO_32
  }

  /** Masking is the identity on valid ids, so a key determines its tokens. */
  lemma {:induction false} LowIsSame(toks: seq<int>)
    requires ValidIds(toks)
    ensures Low32(toks) == toks
  {
  }

  /** The blocks of `table` hold the entries of `rest`, block by block, after `prefix`. */
  ghost predicate TableTrue(p: Pool, prefix: seq<int>, rest: seq<int>, table: seq<nat>, n: nat)
    decreases n
  {
    n > 0 ==>
      && p.blockSize <= |rest| && table != []
      && BlockTrue(p, table[0], prefix, rest[..p.blockSize])
      && TableTrue(p, prefix + rest[..p.blockSize], rest[p.blockSize..], table[1..], n - 1)
  }

  // ------------------------------------------------------------------------ match

  /** `OrderedDict.move_to_end`. */
  function Touch(p: Pool, k: Key): Pool {
    p.(lru := Remove(p.lru, k) + [k])
  }

  /** The indexed blocks that match `rest` behind the chain `parent`; a block is tried only
      if at least one token remains after it. */
  function MatchFrom(p: Pool, parent: Key, rest: seq<int>): (r: (Pool, seq<nat>))
    requires p.blockSize > 0
    decreases |rest|
  {
    if p.blockSize < |rest| && BlockHash(parent, rest[..p.blockSize]) in p.byKey then
      var k := BlockHash(parent, rest[..p.blockSize]);
      var (p', ids) := MatchFrom(Incref(Touch(p, k), p.byKey[k]), k, rest[p.blockSize..]);
      (p', [p.byKey[k]] + ids)
    else
      (p, [])
  }

  /** A match becomes an owner of its blocks: the references the sequence holds. */
  function Match(s: System, tokens: seq<int>): (r: (System, nat))
    requires s.pool.blockSize > 0
  {
    var (p, ids) := MatchFrom(s.pool, Root, tokens);
    if ids == [] then (s, 0)
    else (System(p, s.owners + [Owner(ids, |ids| * s.pool.blockSize)]), |ids| * s.pool.blockSize)
  }

  lemma TouchKeepsIndex(p: Pool, k: Key)
    requires Bijective(p) && IndexTrue(p) && k in p.byKey
    ensures Bijective(Touch(p, k)) && IndexTrue(Touch(p, k))
  {
    RemoveNoDup(p.lru, k);
    var p' := Touch(p, k);
    forall c | c in p'.keyOf ensures HoldsKey(p', c, p'.keyOf[c]) {
      assert HoldsKey(p, c, p.keyOf[c]);
    }
  }

  /** Everything but counts, free list and LRU order is as before. */
  ghost predicate SameIndex(p: Pool, p': Pool) {
    && |p'.refs| == |p.refs| && p'.store == p.store && p'.blockSize == p.blockSize && p'.depth == p.depth
    && p'.byKey == p.byKey && p'.keyOf == p.keyOf
  }

  /** Index consistency and reference counting, for a pool outside any system. */
  ghost predicate PoolOk(p: Pool, uses: multiset<nat>) {
    p.blockSize > 0 && CountedAs(p, uses) && Bijective(p) && IndexTrue(p)
  }

  lemma UseBlock(p: Pool, uses: multiset<nat>, k: Key)
    requires PoolOk(p, uses) && k in p.byKey
    ensures var p' := Incref(Touch(p, k), p.byKey[k]);
      PoolOk(p', uses + multiset{p.byKey[k]}) && SameIndex(p, p')
  {
    TouchKeepsIndex(p, k);
    IncrefCounts(Touch(p, k), uses, p.byKey[k]);
    SameIndexKeepsTruth(Touch(p, k), Incref(Touch(p, k), p.byKey[k]));
  }

  lemma {:induction false} MatchFromCounts(p: Pool, uses: multiset<nat>, parent: Key, rest: seq<int>)
    requires PoolOk(p, uses)
    ensures var (p', ids) := MatchFrom(p, parent, rest);
      PoolOk(p', uses + multiset(ids)) && SameIndex(p, p') && forall b :: b in ids ==> b in p.keyOf
    decreases |rest|
  {
    if p.blockSize < |rest| && BlockHash(parent, rest[..p.blockSize]) in p.byKey {
      var k := BlockHash(parent, rest[..p.blockSize]);
      var id, p1 := p.byKey[k], Incref(Touch(p, k), p.byKey[k]);
      UseBlock(p, uses, k);
      MatchFromCounts(p1, uses + multiset{id}, k, rest[p.blockSize..]);
      var (p', ids) := MatchFrom(p1, k, rest[p.blockSize..]);
      assert uses + multiset{id} + multiset(ids) == uses + multiset([id] + ids);
    } else {
      assert uses + multiset([]) == uses;
    }
  }

  /** At least one token is left to prefill. */
  lemma {:induction false} MatchLeavesToken(p: Pool, parent: Key, rest: seq<int>)
    requires p.blockSize > 0
    ensures var ids := MatchFrom(p, parent, rest).1; ids != [] ==> |ids| * p.blockSize < |rest|
    decreases |rest|
  {
    var bs := p.blockSize;
    if bs < |rest| && BlockHash(parent, rest[..bs]) in p.byKey {
      var k := BlockHash(parent, rest[..bs]);
      var p1 := Incref(Touch(p, k), p.byKey[k]);
      MatchLeavesToken(p1, k, rest[bs..]);
      var ids := MatchFrom(p1, k, rest[bs..]).1;
      SuccTimes(|ids|, bs);
    }
  }

  /** An indexed block found under the key of `toks` after `prefix` holds their entries. */
  lemma KeyedBlockIsTrue(p: Pool, parent: Key, toks: seq<int>, prefix: seq<int>)
    requires Bijective(p) && IndexTrue(p) && ValidIds(toks) && KeyTokens(parent) == prefix
    requires BlockHash(parent, toks) in p.byKey
    ensures BlockTrue(p, p.byKey[BlockHash(parent, toks)], prefix, toks)
    ensures KeyTokens(BlockHash(parent, toks)) == prefix + toks
  {
    LowIsSame(toks);
    assert HoldsKey(p, p.byKey[BlockHash(parent, toks)], BlockHash(parent, toks));
  }

  lemma {:induction false} MatchFromIsTrue(p: Pool, uses: multiset<nat>, parent: Key, rest: seq<int>, prefix: seq<int>)
    requires PoolOk(p, uses) && ValidIds(rest) && KeyTokens(parent) == prefix
    ensures var ids := MatchFrom(p, parent, rest).1; TableTrue(p, prefix, rest, ids, |ids|)
    decreases |rest|
  {
    var bs := p.blockSize;
    if bs < |rest| && BlockHash(parent, rest[..bs]) in p.byKey {
      var k := BlockHash(parent, rest[..bs]);
      var p1 := Incref(Touch(p, k), p.byKey[k]);
      KeyedBlockIsTrue(p, parent, rest[..bs], prefix);
      UseBlock(p, uses, k);
      MatchFromIsTrue(p1, uses + multiset{p.byKey[k]}, k, rest[bs..], prefix + rest[..bs]);
      var ids := MatchFrom(p1, k, rest[bs..]).1;
      SameStoreTableTrue(p1, p, prefix + rest[..bs], rest[bs..], ids, |ids|);
      assert ([p.byKey[k]] + ids)[1..] == ids;
    }
  }

  lemma {:induction false} SameStoreTableTrue(p: Pool, p': Pool, prefix: seq<int>, rest: seq<int>, table: seq<nat>, n: nat)
    requires TableTrue(p, prefix, rest, table, n)
    requires p'.store == p.store && p'.blockSize == p.blockSize && p'.depth == p.depth
    ensures TableTrue(p', prefix, rest, table, n)
    decreases n
  {
    if n > 0 {
      assert BlockTrue(p, table[0], prefix, rest[..p.blockSize]);
      SameStoreTableTrue(p, p', prefix + rest[..p.blockSize], rest[p.blockSize..], table[1..], n - 1);
    }
  }

  // --------------------------------------------- true tables and true contents

  /** The columns a correct cache of `tokens` holds at its first `n` positions. */
  function TruthColumn(tokens: seq<int>, k: nat, n: nat): (c: seq<KV>)
    requires k < |tokens|
    ensures |c| == n && forall l :: 0 <= l < n ==> c[l] == Truth(tokens[..k + 1], l)
  {
    if n == 0 then [] else TruthColumn(tokens, k, n - 1) + [Truth(tokens[..k + 1], n - 1)]
  }

  /** The cache of owner `i` is correct for `tokens`. */
  ghost predicate ContentsTrue(cs: seq<seq<KV>>, tokens: seq<int>, depth: nat) {
    |cs| <= |tokens| && forall k :: 0 <= k < |cs| ==> cs[k] == TruthColumn(tokens, k, depth)
  }

  lemma {:induction false} EntryOfTrueTable(p: Pool, prefix: seq<int>, rest: seq<int>, table: seq<nat>, n: nat, q: nat, o: nat, l: nat)
    requires p.blockSize > 0 && TableTrue(p, prefix, rest, table, n) && q < n && o < p.blockSize && l < p.depth
    ensures q < |table| && q * p.blockSize + o + 1 <= |rest|
    ensures Get(p.store, l, table[q], o) == Truth(prefix + rest[..q * p.blockSize + o + 1], l)
    decreases n
  {
    var bs := p.blockSize;
    if q == 0 {
      assert rest[..bs][..o + 1] == rest[..o + 1];
    } else {
      EntryOfTrueTable(p, prefix + rest[..bs], rest[bs..], table[1..], n - 1, q - 1, o, l);
      assert q * bs == (q - 1) * bs + bs;
      assert prefix + rest[..bs] + rest[bs..][..(q - 1) * bs + o + 1] == prefix + rest[..q * bs + o + 1];
    }
  }

  lemma EntryAtPosition(p: Pool, tokens: seq<int>, t: seq<nat>, k: nat, l: nat)
    requires p.blockSize > 0 && TableTrue(p, [], tokens, t, |t|) && l < p.depth
    requires k < |t| * p.blockSize <= |tokens|
    ensures Lookup(p, t, l, k) == Truth(tokens[..k + 1], l)
  {
    SlotOfPosition(k, |t|, p.blockSize);
    EntryOfTrueTable(p, [], tokens, t, |t|, k / p.blockSize, k % p.blockSize, l);
    assert [] + tokens[..k + 1] == tokens[..k + 1];
  }

  lemma TrueTableGivesTrueContents(s: System, i: nat, tokens: seq<int>)
    requires s.pool.blockSize > 0 && i < |s.owners|
    requires s.owners[i].length == |s.owners[i].table| * s.pool.blockSize <= |tokens|
    requires TableTrue(s.pool, [], tokens, s.owners[i].table, |s.owners[i].table|)
    ensures ContentsTrue(Contents(s, i), tokens, s.pool.depth)
  {
    var p, t, cs := s.pool, s.owners[i].table, Contents(s, i);
    forall k, l | 0 <= k < |cs| && 0 <= l < p.depth ensures cs[k][l] == Truth(tokens[..k + 1], l) {
      EntryAtPosition(p, tokens, t, k, l);
    }
  }

  lemma MatchedOwnerKeepsInv(s: System, p': Pool, ids: seq<nat>)
    requires Inv(s) && SameIndex(s.pool, p') && PoolOk(p', Total(s.owners) + multiset(ids))
    requires forall b :: b in ids ==> b in s.pool.keyOf
    ensures var s' := System(p', s.owners + [Owner(ids, |ids| * s.pool.blockSize)]);
      Inv(s') && OthersKept(s, s', |s.owners|)
  {
    var o := Owner(ids, |ids| * s.pool.blockSize);
    var s' := System(p', s.owners + [o]);
    MultipleIsFull(|ids|, s.pool.blockSize);
    TotalAppend(s.owners, o);
    ShareKeepsOpen(s, o, s');
    forall u | 0 <= u < |s'.owners| ensures Sized(p', s'.owners[u]) {
      if u < |s.owners| {
        assert Sized(s.pool, s.owners[u]);
      }
    }
    forall u | 0 <= u < |s.owners| ensures Contents(s', u) == Contents(s, u) {
      SameStoreKeepsContents(s, s', u);
    }
  }

  /** Nothing, or a new owner with a correct cache of a proper block-aligned prefix. */
  ghost predicate MatchResult(s: System, tokens: seq<int>, s': System, n: nat)
    requires s.pool.blockSize > 0
  {
    if n == 0 then s' == s else
      && n < |tokens| && n % s.pool.blockSize == 0
      && |s'.owners| == |s.owners| + 1 && s'.owners[|s.owners|].length == n
      && ContentsTrue(Contents(s', |s.owners|), tokens, s.pool.depth)
  }

  lemma MatchKeepsInv(s: System, tokens: seq<int>)
    requires Inv(s)
    ensures var s' := Match(s, tokens).0; Inv(s') && OthersKept(s, s', |s.owners|)
  {
    var (p', ids) := MatchFrom(s.pool, Root, tokens);
    MatchFromCounts(s.pool, Total(s.owners), Root, tokens);
    if ids != [] {
      MatchedOwnerKeepsInv(s, p', ids);
    }
  }

  lemma MatchedTableIsTrue(s: System, tokens: seq<int>)
    requires Inv(s) && ValidIds(tokens)
    ensures var (p', ids) := MatchFrom(s.pool, Root, tokens);
      p'.depth == s.pool.depth && p'.blockSize == s.pool.blockSize && TableTrue(p', [], tokens, ids, |ids|)
  {
    var (p', ids) := MatchFrom(s.pool, Root, tokens);
    MatchFromCounts(s.pool, Total(s.owners), Root, tokens);
    MatchFromIsTrue(s.pool, Total(s.owners), Root, tokens, []);
    SameStoreTableTrue(s.pool, p', [], tokens, ids, |ids|);
  }

  /** A match is sound: the blocks it hands out are a correct cache of a proper, block
      aligned prefix of the prompt. */
  lemma MatchIsSound(s: System, tokens: seq<int>)
    requires Inv(s) && ValidIds(tokens)
    ensures var (s', n) := Match(s, tokens); MatchResult(s, tokens, s', n)
  {
    hide TableTrue, ContentsTrue, Counted, OpenUnsealed, Bijective, IndexTrue;
    var ids := MatchFrom(s.pool, Root, tokens).1;
    if ids != [] {
      MatchLeavesToken(s.pool, Root, tokens);
      MultipleIsFull(|ids|, s.pool.blockSize);
      MatchedTableIsTrue(s, tokens);
      TrueTableGivesTrueContents(Match(s, tokens).0, |s.owners|, tokens);
    }
  }

  // ----------------------------------------------------------------------- insert

  /** Registers block `b` under `k` unless either is taken. */
  function Register(p: Pool, k: Key, b: nat): Pool {
    if k in p.byKey then Touch(p, k)
    else if b in p.keyOf then p
    else p.(byKey := p.byKey[k := b], keyOf := p.keyOf[b := k], lru := p.lru + [k])
  }

  /** Registers the first `n` blocks of a table under the chain behind `parent`. */
  function InsertFrom(p: Pool, parent: Key, rest: seq<int>, table: seq<nat>, n: nat): Pool
    decreases n
  {
    if n == 0 || |rest| < p.blockSize || table == [] then p else
      var k := BlockHash(parent, rest[..p.blockSize]);
      var p' := Register(p, k, table[0]);
      if |rest| < p'.blockSize then p' else InsertFrom(p', k, rest[p'.blockSize..], table[1..], n - 1)
  }

  /** Pops the oldest key, and its block's entry if that points back. */
  function DropOldest(p: Pool): Pool
    requires p.lru != []
  {
    var k := p.lru[0];
    var p' := p.(lru := p.lru[1..], byKey := p.byKey - {k});
    if k in p.byKey && p.byKey[k] in p.keyOf && p.keyOf[p.byKey[k]] == k
    then p'.(keyOf := p.keyOf - {p.byKey[k]}) else p'
  }

  /** Drops the oldest keys until at most `max` remain. */
  function EvictTo(p: Pool, max: nat): Pool
    decreases |p.lru|
  {
    if |p.lru| <= max then p else EvictTo(DropOldest(p), max)
  }

  /** `insert`: the complete blocks of a cache, as far as tokens are known. */
  function Insert(s: System, tokens: seq<int>, i: nat, max: nat): System
    requires s.pool.blockSize > 0 && i < |s.owners|
  {
    var o := s.owners[i];
    var n := Min(Min(o.length, |tokens|), |o.table| * s.pool.blockSize);
    if o.table == [] || n < 0 then s
    else s.(pool := EvictTo(InsertFrom(s.pool, Root, tokens, o.table, n / s.pool.blockSize), max))
  }

  lemma RegisterKeepsIndex(p: Pool, k: Key, b: nat)
    requires Bijective(p) && IndexTrue(p) && b < |p.refs| && HoldsKey(p, b, k)
    ensures var p' := Register(p, k, b);
      Bijective(p') && IndexTrue(p') && p'.keyOf.Keys <= p.keyOf.Keys + {b} && OnlyIndex(p, p')
  {
    if k in p.byKey {
      TouchKeepsIndex(p, k);
    } else if b !in p.keyOf {
      var p' := Register(p, k, b);
      forall c | c in p'.keyOf ensures HoldsKey(p', c, p'.keyOf[c]) {
        if c != b {
          assert HoldsKey(p, c, p.keyOf[c]);
        }
      }
    }
  }

  /** Only the index differs. */
  ghost predicate OnlyIndex(p: Pool, p': Pool) {
    && p'.refs == p.refs && p'.free == p.free && p'.store == p.store
    && p'.blockSize == p.blockSize && p'.depth == p.depth
  }

  lemma {:induction false} InsertFromKeepsIndex(p: Pool, parent: Key, rest: seq<int>, prefix: seq<int>, table: seq<nat>, n: nat)
    requires Bijective(p) && IndexTrue(p) && ValidIds(rest) && KeyTokens(parent) == prefix
    requires TableTrue(p, prefix, rest, table, n)
    requires forall j :: 0 <= j < |table| ==> table[j] < |p.refs|
    ensures var p' := InsertFrom(p, parent, rest, table, n);
      Bijective(p') && IndexTrue(p') && OnlyIndex(p, p')
    decreases n
  {
    var bs := p.blockSize;
    if n > 0 {
      var k := BlockHash(parent, rest[..bs]);
      LowIsSame(rest[..bs]);
      RegisterKeepsIndex(p, k, table[0]);
      var p1 := Register(p, k, table[0]);
      SameStoreTableTrue(p, p1, prefix + rest[..bs], rest[bs..], table[1..], n - 1);
      InsertFromKeepsIndex(p1, k, rest[bs..], prefix + rest[..bs], table[1..], n - 1);
    }
  }

  /** Only blocks of the first `n` slots become indexed. */
  lemma {:induction false} InsertFromAddsSlots(p: Pool, parent: Key, rest: seq<int>, table: seq<nat>, n: nat)
    ensures forall b :: b in InsertFrom(p, parent, rest, table, n).keyOf ==>
      b in p.keyOf || SlotBelow(table, n, b)
    decreases n
  {
    if n > 0 && p.blockSize <= |rest| && table != [] {
      var k := BlockHash(parent, rest[..p.blockSize]);
      var p1 := Register(p, k, table[0]);
      InsertFromAddsSlots(p1, k, rest[p.blockSize..], table[1..], n - 1);
      forall b | b in InsertFrom(p, parent, rest, table, n).keyOf && b !in p.keyOf
        ensures SlotBelow(table, n, b)
      {
        if b != table[0] {
          assert b !in p1.keyOf;
          assert SlotBelow(table[1..], n - 1, b);
          var j :| 0 <= j < |table[1..]| && j < n - 1 && table[1..][j] == b;
          assert table[j + 1] == b;
        }
      }
    }
  }

  lemma DropOldestKeepsIndex(p: Pool)
    requires Bijective(p) && IndexTrue(p) && p.lru != []
    ensures var p1 := DropOldest(p);
      Bijective(p1) && IndexTrue(p1) && OnlyIndex(p, p1) && p1.keyOf.Keys <= p.keyOf.Keys
  {
    assert p.lru[0] in p.lru && p.lru == [p.lru[0]] + p.lru[1..];
    var p1 := DropOldest(p);
    forall c | c in p1.keyOf ensures HoldsKey(p1, c, p1.keyOf[c]) {
      assert HoldsKey(p, c, p.keyOf[c]);
    }
  }

  lemma {:induction false} EvictKeepsIndex(p: Pool, max: nat)
    requires Bijective(p) && IndexTrue(p)
    ensures var p' := EvictTo(p, max);
      Bijective(p') && IndexTrue(p') && OnlyIndex(p, p') && p'.keyOf.Keys <= p.keyOf.Keys && |p'.lru| <= max
    decreases |p.lru|
  {
    if |p.lru| > max {
      DropOldestKeepsIndex(p);
      EvictKeepsIndex(DropOldest(p), max);
    }
  }

  /** Tables over correct contents are true tables. */
  lemma {:induction false} TrueContentsGiveTrueTable(p: Pool, t: seq<nat>, tokens: seq<int>, q: nat, n: nat)
    requires p.blockSize > 0 && q <= n <= |t| && n * p.blockSize <= |tokens|
    requires forall l: nat, k: nat :: l < p.depth && k < n * p.blockSize ==> Lookup(p, t, l, k) == Truth(tokens[..k + 1], l)
    requires q * p.blockSize <= |tokens|
    ensures TableTrue(p, tokens[..q * p.blockSize], tokens[q * p.blockSize..], t[q..], n - q)
    decreases n - q
  {
    var bs := p.blockSize;
    if q < n {
      SuccTimes(q, bs);
      TimesMonotone(q + 1, n, bs);
      var start := q * bs;
      TrueContentsGiveTrueTable(p, t, tokens, q + 1, n);
      assert tokens[..start] + tokens[start..][..bs] == tokens[..start + bs];
      assert tokens[start..][bs..] == tokens[start + bs..];
      assert t[q..][1..] == t[q + 1..];
      BlockOfTrueContents(p, t, tokens, q, n);
    }
  }

  lemma BlockOfTrueContents(p: Pool, t: seq<nat>, tokens: seq<int>, q: nat, n: nat)
    requires p.blockSize > 0 && q < n <= |t| && q * p.blockSize + p.blockSize <= n * p.blockSize <= |tokens|
    requires forall l: nat, k: nat :: l < p.depth && k < n * p.blockSize ==> Lookup(p, t, l, k) == Truth(tokens[..k + 1], l)
    ensures BlockTrue(p, t[q], tokens[..q * p.blockSize], tokens[q * p.blockSize..][..p.blockSize])
  {
    var bs, start := p.blockSize, q * p.blockSize;
    var toks := tokens[start..][..bs];
    forall l: nat, o: nat | l < p.depth && o < bs
      ensures Get(p.store, l, t[q], o) == Truth(tokens[..start] + toks[..o + 1], l)
    {
      QuotientIs(start + o, bs, q, o);
      assert Lookup(p, t, l, start + o) == Truth(tokens[..start + o + 1], l);
      assert tokens[..start] + toks[..o + 1] == tokens[..start + o + 1];
    }
  }

  /** The number of blocks `insert` looks at. */
  function InsertSlots(s: System, tokens: seq<int>, i: nat): nat
    requires s.pool.blockSize > 0 && i < |s.owners|
  {
    Min(Min(s.owners[i].length, |tokens|), |s.owners[i].table| * s.pool.blockSize) / s.pool.blockSize
  }

  /** Owner `i` holds correct entries as far as `tokens` are known. */
  ghost predicate KnownTrue(s: System, i: nat, tokens: seq<int>)
    requires i < |s.owners|
  {
    forall k :: 0 <= k < s.owners[i].length && k < |tokens| ==>
      Contents(s, i)[k] == TruthColumn(tokens, k, s.pool.depth)
  }

  lemma InsertTableIsTrue(s: System, tokens: seq<int>, i: nat)
    requires Inv(s) && i < |s.owners| && KnownTrue(s, i, tokens)
    ensures TableTrue(s.pool, [], tokens, s.owners[i].table, InsertSlots(s, tokens, i))
    ensures InsertSlots(s, tokens, i) <= FullSlots(s.pool, s.owners[i])
  {
    var p, t, n, bs := s.pool, s.owners[i].table, InsertSlots(s, tokens, i), s.pool.blockSize;
    var m := Min(Min(s.owners[i].length, |tokens|), |t| * bs);
    assert n * bs + m % bs == m;
    QuotientMonotone(m, s.owners[i].length, bs);
    QuotientMonotone(m, |t| * bs, bs);
    MultipleIsFull(|t|, bs);
    forall l: nat, k: nat | l < p.depth && k < n * bs ensures Lookup(p, t, l, k) == Truth(tokens[..k + 1], l) {
      assert Contents(s, i)[k] == TruthColumn(tokens, k, p.depth);
      assert Contents(s, i)[k][l] == TruthColumn(tokens, k, p.depth)[l];
    }
    TrueContentsGiveTrueTable(p, t, tokens, 0, n);
    assert tokens[..0 * bs] == [] && tokens[0 * bs..] == tokens && t[0..] == t;
  }

  lemma QuotientMonotone(a: nat, b: nat, bs: nat)
    requires bs > 0 && a <= b
    ensures a / bs <= b / bs
  {
    if a < b {
      PositionBelow(a, b, bs);
    }
  }

  /** The index after `insert`: consistent, true, and extended by complete blocks only. */
  lemma InsertKeepsIndex(s: System, tokens: seq<int>, i: nat, max: nat)
    requires Inv(s) && i < |s.owners| && ValidIds(tokens) && KnownTrue(s, i, tokens)
    ensures var p' := EvictTo(InsertFrom(s.pool, Root, tokens, s.owners[i].table, InsertSlots(s, tokens, i)), max);
      Bijective(p') && IndexTrue(p') && OnlyIndex(s.pool, p') && |p'.lru| <= max &&
      forall b :: b in p'.keyOf ==> b in s.pool.keyOf || SlotBelow(s.owners[i].table, InsertSlots(s, tokens, i), b)
  {
    var t, n := s.owners[i].table, InsertSlots(s, tokens, i);
    InsertTableIsTrue(s, tokens, i);
    TablesInRange(s, i);
    forall j | 0 <= j < |t| ensures t[j] < |s.pool.refs| {
      assert t[j] in t;
    }
    InsertFromKeepsIndex(s.pool, Root, tokens, [], t, n);
    InsertFromAddsSlots(s.pool, Root, tokens, t, n);
    EvictKeepsIndex(InsertFrom(s.pool, Root, tokens, t, n), max);
  }

  ghost predicate SlotBelow(t: seq<nat>, n: nat, b: nat) {
    exists j :: 0 <= j < |t| && j < n && t[j] == b
  }

  /** Registering a finished sequence keeps every invariant and changes no one's view. */
  lemma InsertKeepsInv(s: System, tokens: seq<int>, i: nat, max: nat)
    requires Inv(s) && i < |s.owners| && ValidIds(tokens) && KnownTrue(s, i, tokens)
    ensures var s' := Insert(s, tokens, i, max);
      Inv(s') && s'.owners == s.owners && OnlyIndex(s.pool, s'.pool)
  {
    var s' := Insert(s, tokens, i, max);
    if s.owners[i].table != [] {
      InsertTableIsTrue(s, tokens, i);
      InsertKeepsIndex(s, tokens, i, max);
      InsertKeepsOpen(s, i, InsertSlots(s, tokens, i), s');
      forall u | 0 <= u < |s'.owners| ensures Sized(s'.pool, s'.owners[u]) {
        assert Sized(s.pool, s.owners[u]);
      }
    }
  }

  lemma InsertKeepsOpen(s: System, i: nat, n: nat, s': System)
    requires Inv(s) && i < |s.owners| && n <= FullSlots(s.pool, s.owners[i])
    requires s'.owners == s.owners && s'.pool.blockSize == s.pool.blockSize
    requires forall b :: b in s'.pool.keyOf ==> b in s.pool.keyOf || SlotBelow(s.owners[i].table, n, b)
    ensures OpenUnsealed(s')
  {
    forall u: nat, v: nat | Open(s', u, v) ensures s'.owners[u].table[v] !in s'.pool.keyOf {
      assert Open(s, u, v);
      forall j: nat | j < |s.owners[i].table| && j < n ensures s.owners[i].table[j] != s.owners[u].table[v] {
        assert Full(s, i, j);
      }
    }
    forall u: nat, v: nat, u': nat, v': nat | Open(s', u, v) && Full(s', u', v')
      ensures s'.owners[u].table[v] != s'.owners[u'].table[v']
    {
      assert Open(s, u, v) && Full(s, u', v');
    }
  }
}
