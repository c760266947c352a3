/** Every cache over one pool at once: the invariant that ties reference counts, block
    tables and the prefix index together, and its preservation by the primitive steps. */
module PoolSystem {
  import opened Wrappers
  import opened Transformer
  import opened BlockPool

  /** A block table and how many of its positions are valid: a paged cache, or the blocks a
      waiting sequence holds for the prefix that `match` found. */
  datatype Owner = Owner(table: seq<nat>, length: nat)

  datatype System = System(pool: Pool, owners: seq<Owner>)

  /** Occurrences of each block in all tables. */
  function Total(owners: seq<Owner>): multiset<nat> {
    if owners == [] then multiset{} else multiset(owners[0].table) + Total(owners[1..])
  }

  /** How many blocks of `o` are completely valid. */
  function FullSlots(p: Pool, o: Owner): nat
    requires p.blockSize > 0
  {
    o.length / p.blockSize
  }

  /** The owner's table has a block for every valid position and at most one beyond the
      complete ones. */
  ghost predicate Sized(p: Pool, o: Owner)
    requires p.blockSize > 0
  {
    FullSlots(p, o) <= |o.table| <= FullSlots(p, o) + 1 && (o.length % p.blockSize > 0 ==> FullSlots(p, o) < |o.table|)
  }

  /** Reference conservation: a block's count is its occurrences in the tables, and it is on
      the free list exactly when that count is zero. */
  ghost predicate Counted(s: System) {
    CountedAs(s.pool, Total(s.owners))
  }

  ghost predicate CountedAs(p: Pool, uses: multiset<nat>) {
    && NoDup(p.free)
    && (forall b: nat :: Ref(p, b) == uses[b])
    && (forall b: nat :: b in p.free <==> b < |p.refs| && Ref(p, b) == 0)
  }

  /** Slot `j` of owner `i` exists and is not yet completely valid. */
  ghost predicate Open(s: System, i: nat, j: nat)
    requires s.pool.blockSize > 0
  {
    i < |s.owners| && FullSlots(s.pool, s.owners[i]) <= j < |s.owners[i].table|
  }

  /** Slot `j` of owner `i` is completely valid. */
  ghost predicate Full(s: System, i: nat, j: nat)
    requires s.pool.blockSize > 0
  {
    i < |s.owners| && j < |s.owners[i].table| && j < FullSlots(s.pool, s.owners[i])
  }

  /** No block that may still be written is indexed, or counted on as complete by anyone. */
  ghost predicate OpenUnsealed(s: System)
    requires s.pool.blockSize > 0
  {
    && (forall i: nat, j: nat :: Open(s, i, j) ==> s.owners[i].table[j] !in s.pool.keyOf)
    && (forall i: nat, j: nat, i': nat, j': nat :: Open(s, i, j) && Full(s, i', j') ==>
          s.owners[i].table[j] != s.owners[i'].table[j'])
  }

  /** The two dictionaries are mutual inverses and the LRU order lists the keys once. */
  ghost predicate Bijective(p: Pool) {
    && (forall k :: k in p.byKey ==> p.byKey[k] in p.keyOf && p.keyOf[p.byKey[k]] == k)
    && (forall b :: b in p.keyOf ==> p.keyOf[b] in p.byKey && p.byKey[p.keyOf[b]] == b)
    && NoDup(p.lru)
    && (forall k :: k in p.lru <==> k in p.byKey)
    && (forall b :: b in p.keyOf ==> b < |p.refs|)
  }

  /** The token ids a key stands for. */
  function KeyTokens(k: Key): seq<int> {
    match k
    case Root => []
    case Chain(parent, toks) => KeyTokens(parent) + toks
  }

  /** Block `b` holds, in every layer, the entries of the tokens `toks` after `prefix`. */
  ghost predicate BlockTrue(p: Pool, b: nat, prefix: seq<int>, toks: seq<int>) {
    && |toks| == p.blockSize
    && forall l: nat, o: nat :: l < p.depth && o < p.blockSize ==>
         Get(p.store, l, b, o) == Truth(prefix + toks[..o + 1], l)
  }

  /** Block `b` holds what key `k` promises: its last block after all the earlier ones. */
  ghost predicate HoldsKey(p: Pool, b: nat, k: Key) {
    k.Chain? && BlockTrue(p, b, KeyTokens(k.parent), k.toks)
  }

  ghost predicate IndexTrue(p: Pool) {
    forall b :: b in p.keyOf ==> HoldsKey(p, b, p.keyOf[b])
  }

  ghost predicate Inv(s: System) {
    && s.pool.blockSize > 0
    && Counted(s)
    && (forall i :: 0 <= i < |s.owners| ==> Sized(s.pool, s.owners[i]))
    && OpenUnsealed(s)
    && Bijective(s.pool)
    && IndexTrue(s.pool)
  }

  // ------------------------------------------------------------- counting lemmas

  lemma {:induction false} TotalUpdate(owners: seq<Owner>, i: nat, o: Owner)
    requires i < |owners|
    ensures Total(owners[i := o]) + multiset(owners[i].table) == Total(owners) + multiset(o.table)
  {
    var owners' := owners[i := o];
    if i == 0 {
      assert owners'[1..] == owners[1..];
    } else {
      var rest := owners[1..];
      TotalUpdate(rest, i - 1, o);
      assert owners'[1..] == rest[i - 1 := o];
      var a, x := multiset(owners[0].table), Total(rest[i - 1 := o]);
      assert (a + x) + multiset(owners[i].table) == a + (x + multiset(rest[i - 1].table));
      assert a + (Total(rest) + multiset(o.table)) == (a + Total(rest)) + multiset(o.table);
    }
  }

  /** The same for one block, as integers. */
  lemma UsesAfterUpdate(owners: seq<Owner>, i: nat, o: Owner, x: nat)
    requires i < |owners|
    ensures Total(owners[i := o])[x] + multiset(owners[i].table)[x] == Total(owners)[x] + multiset(o.table)[x]
  {
    TotalUpdate(owners, i, o);
    var a, b, c, d := Total(owners[i := o]), multiset(owners[i].table), Total(owners), multiset(o.table);
    assert (a + b)[x] == (c + d)[x];
  }

  lemma OccurrencesAfterAppend(t: seq<nat>, b: nat, x: nat)
    ensures multiset(t + [b])[x] == multiset(t)[x] + (if x == b then 1 else 0)
  {
    assert multiset(t + [b]) == multiset(t) + multiset([b]);
  }

  lemma OccurrencesAfterReplace(t: seq<nat>, j: nat, b: nat, x: nat)
    requires j < |t|
    ensures multiset(t[j := b])[x] ==
      multiset(t)[x] - (if x == t[j] then 1 else 0) + (if x == b then 1 else 0)
  {
    assert t == t[..j] + [t[j]] + t[j + 1..];
    assert t[j := b] == t[..j] + [b] + t[j + 1..];
  }

  lemma {:induction false} TotalAppend(owners: seq<Owner>, o: Owner)
    ensures Total(owners + [o]) == Total(owners) + multiset(o.table)
  {
    if owners == [] {
      assert (owners + [o])[1..] == [];
    } else {
      TotalAppend(owners[1..], o);
      assert (owners + [o])[1..] == owners[1..] + [o];
    }
  }

  lemma {:induction false} TotalHas(owners: seq<Owner>, i: nat)
    requires i < |owners|
    ensures multiset(owners[i].table) <= Total(owners)
  {
    if i > 0 {
      TotalHas(owners[1..], i - 1);
    }
  }

  lemma {:induction false} TotalHasTwo(owners: seq<Owner>, i: nat, j: nat)
    requires i < j < |owners|
    ensures multiset(owners[i].table) + multiset(owners[j].table) <= Total(owners)
  {
    if i == 0 {
      TotalHas(owners[1..], j - 1);
    } else {
      TotalHasTwo(owners[1..], i - 1, j - 1);
    }
  }

  lemma TwiceInTable(t: seq<nat>, a: nat, b: nat)
    requires a < b < |t| && t[a] == t[b]
    ensures multiset(t)[t[a]] >= 2
  {
    assert t == t[..b] + t[b..];
    assert t[a] in t[..b] && t[b] in t[b..];
  }

  /** A block with count 1 occurs in one slot only; one with count 0 in none. */
  lemma SlotsOfBlock(s: System, i: nat, j: nat, i': nat, j': nat)
    requires Counted(s) && i < |s.owners| && j < |s.owners[i].table|
    requires i' < |s.owners| && j' < |s.owners[i'].table| && s.owners[i].table[j] == s.owners[i'].table[j']
    ensures Ref(s.pool, s.owners[i].table[j]) >= 1
    ensures Ref(s.pool, s.owners[i].table[j]) == 1 ==> i == i' && j == j'
  {
    TotalHas(s.owners, i);
    var b := s.owners[i].table[j];
    assert b in multiset(s.owners[i].table);
    if i == i' && j != j' {
      TwiceInTable(s.owners[i].table, if j < j' then j else j', if j < j' then j' else j);
    } else if i != i' {
      TotalHasTwo(s.owners, if i < i' then i else i', if i < i' then i' else i);
      assert b in multiset(s.owners[i'].table);
    }
  }

  /** A free block occurs in no table. */
  lemma FreeIsUnused(s: System, b: nat, i: nat, j: nat)
    requires Counted(s) && b in s.pool.free && i < |s.owners| && j < |s.owners[i].table|
    ensures s.owners[i].table[j] != b
  {
    if s.owners[i].table[j] == b {
      SlotsOfBlock(s, i, j, i, j);
    }
  }

  // ------------------------------------------------------------ arithmetic of slots

  lemma {:induction false} MulStep(a: nat, b: nat, c: nat)
    requires a < b
    ensures a * c + c <= b * c
    decreases b
  {
    if a + 1 < b {
      MulStep(a, b - 1, c);
      assert b * c == (b - 1) * c + c;
    } else {
      assert b * c == a * c + c;
    }
  }

  lemma QuotientIs(n: nat, bs: nat, q: nat, r: nat)
    requires bs > 0 && n == q * bs + r && r < bs
    ensures n / bs == q && n % bs == r
  {
    var q' := n / bs;
    assert n == q' * bs + n % bs;
    if q' < q {
      MulStep(q', q, bs);
    } else if q < q' {
      MulStep(q, q', bs);
    }
  }

  lemma NextPosition(n: nat, bs: nat)
    requires bs > 0
    ensures if n % bs + 1 == bs then (n + 1) / bs == n / bs + 1 && (n + 1) % bs == 0
            else (n + 1) / bs == n / bs && (n + 1) % bs == n % bs + 1
  {
    var q, r := n / bs, n % bs;
    assert n == q * bs + r;
    if r + 1 == bs {
      assert (q + 1) * bs == q * bs + bs;
      QuotientIs(n + 1, bs, q + 1, 0);
    } else {
      QuotientIs(n + 1, bs, q, r + 1);
    }
  }

  /** Positions below `n` lie in full slots or before the offset of the open one. */
  lemma PositionBelow(k: nat, n: nat, bs: nat)
    requires bs > 0 && k < n
    ensures k / bs < n / bs || (k / bs == n / bs && k % bs < n % bs)
  {
    var q, q' := k / bs, n / bs;
    assert k == q * bs + k % bs && n == q' * bs + n % bs;
    if q > q' {
      MulStep(q', q, bs);
    }
  }

  lemma SuccTimes(n: nat, bs: nat)
    ensures (n + 1) * bs == n * bs + bs
  {
  }

  /** Position `k` is offset `k % bs` of slot `k / bs`, one of the `n` slots. */
  lemma SlotOfPosition(k: nat, n: nat, bs: nat)
    requires bs > 0 && k < n * bs
    ensures 0 <= k / bs < n && 0 <= k % bs < bs && (k / bs) * bs + k % bs == k
  {
    if n <= k / bs {
      TimesMonotone(n, k / bs, bs);
    }
  }

  lemma TimesMonotone(a: nat, b: nat, c: nat)
    requires a <= b
    ensures a * c <= b * c
  {
    if a < b {
      MulStep(a, b, c);
    }
  }
}
