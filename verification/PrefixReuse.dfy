/** Reuse of the prefix index: what an insert registers, a match of any longer prompt finds, and
    a match stops only where it must. */
module PrefixReuse {
  import opened Wrappers
  import opened Transformer
  import opened BlockPool
  import opened PoolSystem
  import opened PoolSharing
  import opened PrefixIndex
  import opened PrefixCaches

  // ------------------------------------------------------------------- chain keys

  /** The tokens whose blocks may be matched: at least one is left to prefill. */
  function Usable(tokens: seq<int>): seq<int> {
    if tokens == [] then [] else tokens[..|tokens| - 1]
  }

  lemma {:induction false} KeysCount(parent: Key, rest: seq<int>, bs: nat)
    requires bs > 0
    ensures |Keys(parent, rest, bs)| == |rest| / bs
    decreases |rest|
  {
    if |rest| < bs {
      QuotientIs(|rest|, bs, 0, |rest|);
    } else {
      KeysCount(BlockHash(parent, rest[..bs]), rest[bs..], bs);
      var q := (|rest| - bs) / bs;
      SuccTimes(q, bs);
      QuotientIs(|rest|, bs, q + 1, (|rest| - bs) % bs);
    }
  }

  /** A longer text has more keys. */
  lemma {:induction false} KeysOfLonger(parent: Key, rest: seq<int>, more: seq<int>, bs: nat)
    requires bs > 0 && rest <= more
    ensures Keys(parent, rest, bs) <= Keys(parent, more, bs)
    decreases |rest|
  {
    if bs <= |rest| {
      assert rest[..bs] == more[..bs];
      KeysOfLonger(BlockHash(parent, rest[..bs]), rest[bs..], more[bs..], bs);
    }
  }

  /** Keys of one chain differ. */
  lemma KeysDiffer(tokens: seq<int>, bs: nat, i: nat, j: nat)
    requires bs > 0 && i < |Keys(Root, tokens, bs)| && j < |Keys(Root, tokens, bs)| && i != j
    ensures Keys(Root, tokens, bs)[i] != Keys(Root, tokens, bs)[j]
  {
    KeyDepths(Root, tokens, bs);
  }

  // ------------------------------------------------------------------------ match

  /** `ids` are the blocks of the longest run of indexed keys. */
  ghost predicate LongestRun(byKey: map<Key, nat>, ks: seq<Key>, ids: seq<nat>) {
    && |ids| <= |ks| && (forall j :: 0 <= j < |ids| ==> ks[j] in byKey && byKey[ks[j]] == ids[j])
    && (|ids| < |ks| ==> ks[|ids|] !in byKey)
  }

  lemma MatchStep(p: Pool, parent: Key, rest: seq<int>)
    requires p.blockSize > 0
    ensures if p.blockSize < |rest| && BlockHash(parent, rest[..p.blockSize]) in p.byKey then
        var k := BlockHash(parent, rest[..p.blockSize]);
        var p1 := Incref(Touch(p, k), p.byKey[k]);
        && MatchFrom(p, parent, rest).0 == MatchFrom(p1, k, rest[p.blockSize..]).0
        && MatchFrom(p, parent, rest).1 == [p.byKey[k]] + MatchFrom(p1, k, rest[p.blockSize..]).1
        && Keys(parent, Usable(rest), p.blockSize) == [k] + Keys(k, Usable(rest[p.blockSize..]), p.blockSize)
        && p1.lru == Remove(p.lru, k) + [k] && KeyDepth(k) == KeyDepth(parent) + 1
      else
        && MatchFrom(p, parent, rest) == (p, [])
        && var ks := Keys(parent, Usable(rest), p.blockSize);
           if p.blockSize < |rest| then ks != [] && ks[0] == BlockHash(parent, rest[..p.blockSize]) else ks == []
  {
    var bs := p.blockSize;
    if bs < |rest| {
      assert Usable(rest)[..bs] == rest[..bs] && Usable(rest)[bs..] == Usable(rest[bs..]);
    }
  }

  /** A match stops only at a key that is not indexed, or when no token would be left. */
  lemma {:induction false} MatchFromIsLongest(p: Pool, parent: Key, rest: seq<int>)
    requires p.blockSize > 0
    ensures LongestRun(p.byKey, Keys(parent, Usable(rest), p.blockSize), MatchFrom(p, parent, rest).1)
    decreases |rest|
  {
    hide MatchFrom, Keys, Usable, Remove, KeyDepth;
    var bs := p.blockSize;
    MatchStep(p, parent, rest);
    if bs < |rest| && BlockHash(parent, rest[..bs]) in p.byKey {
      var k := BlockHash(parent, rest[..bs]);
      MatchFromIsLongest(Incref(Touch(p, k), p.byKey[k]), k, rest[bs..]);
    }
  }

  lemma RenewEnds(order: seq<Key>, newest: seq<Key>, k: Key)
    requires EndsWith(order, newest) && k !in newest
    ensures EndsWith(Remove(order, k) + [k], newest + [k])
  {
    var pre := order[..|order| - |newest|];
    assert order == pre + newest;
    RemoveAppend(pre, newest, k);
    assert Remove(order, k) + [k] == Remove(pre, k) + (newest + [k]);
  }

  /** The keys matched become the newest, in order. */
  lemma {:induction false} MatchFromRenews(p: Pool, parent: Key, rest: seq<int>, newest: seq<Key>)
    requires p.blockSize > 0 && EndsWith(p.lru, newest) && forall k :: k in newest ==> KeyDepth(k) <= KeyDepth(parent)
    ensures var (p', ids) := MatchFrom(p, parent, rest);
      && |ids| <= |Keys(parent, Usable(rest), p.blockSize)|
      && EndsWith(p'.lru, newest + Keys(parent, Usable(rest), p.blockSize)[..|ids|])
    decreases |rest|
  {
    hide EndsWith, MatchFrom, Keys, Usable, Remove;
    var bs := p.blockSize;
    MatchFromIsLongest(p, parent, rest);
    MatchStep(p, parent, rest);
    if bs < |rest| && BlockHash(parent, rest[..bs]) in p.byKey {
      var k := BlockHash(parent, rest[..bs]);
      var p1 := Incref(Touch(p, k), p.byKey[k]);
      RenewEnds(p.lru, newest, k);
      MatchFromRenews(p1, k, rest[bs..], newest + [k]);
      var later, n := Keys(k, Usable(rest[bs..]), bs), |MatchFrom(p1, k, rest[bs..]).1|;
      assert newest + [k] + later[..n] == newest + ([k] + later)[..n + 1];
    } else {
      assert newest + Keys(parent, Usable(rest), bs)[..0] == newest;
    }
  }

  // ----------------------------------------------------------------------- insert

  /** The keys that `InsertFrom` renews or adds, in order. */
  function Taken(p: Pool, parent: Key, rest: seq<int>, table: seq<nat>, n: nat): (ks: seq<Key>)
    ensures |ks| <= n
    decreases n
  {
    if n == 0 || |rest| < p.blockSize || table == [] then [] else
      var k := BlockHash(parent, rest[..p.blockSize]);
      var later := Taken(Register(p, k, table[0]), k, rest[p.blockSize..], table[1..], n - 1);
      if k in p.byKey || table[0] !in p.keyOf then [k] + later else later
  }

  lemma RegisterIsBijective(p: Pool, k: Key, b: nat)
    requires Bijective(p) && b < |p.refs|
    ensures var p' := Register(p, k, b);
      && Bijective(p') && |p'.refs| == |p.refs| && p'.blockSize == p.blockSize
      && (k in p.byKey || b !in p.keyOf ==> p'.lru == Remove(p.lru, k) + [k] && k in p'.byKey)
      && (forall x :: x in p.byKey ==> x in p'.byKey) && (forall x :: x in p'.byKey ==> x == k || x in p.byKey)
  {
    hide Remove, NoDup;
    if k in p.byKey {
      TouchIsBijective(p, k);
    } else if b !in p.keyOf {
      AddIsBijective(p, k, b);
    }
  }

  lemma TouchIsBijective(p: Pool, k: Key)
    requires Bijective(p) && k in p.byKey
    ensures Bijective(Touch(p, k))
  {
    hide NoDup, Remove;
    RemoveNoDup(p.lru, k);
    AddedLast(Remove(p.lru, k), k);
  }

  lemma AddedLast(order: seq<Key>, k: Key)
    requires NoDup(order) && k !in order
    ensures NoDup(order + [k])
  {
  }

  lemma FirstOut(order: seq<Key>)
    requires NoDup(order) && order != []
    ensures NoDup(order[1..]) && order[0] !in order[1..] && forall k :: k in order <==> k == order[0] || k in order[1..]
  {
    assert order == [order[0]] + order[1..];
  }

  lemma AddIsBijective(p: Pool, k: Key, b: nat)
    requires Bijective(p) && k !in p.byKey && b !in p.keyOf && b < |p.refs|
    ensures Bijective(p.(byKey := p.byKey[k := b], keyOf := p.keyOf[b := k], lru := p.lru + [k]))
    ensures Remove(p.lru, k) == p.lru
  {
    assert k !in p.lru;
  }

  /** The keys an insert takes become the newest, in order. */
  lemma {:induction false} InsertFromRenews(p: Pool, parent: Key, rest: seq<int>, table: seq<nat>, n: nat, newest: seq<Key>)
    requires Bijective(p) && (forall j :: 0 <= j < |table| ==> table[j] < |p.refs|) && EndsWith(p.lru, newest)
    requires forall k :: k in newest ==> KeyDepth(k) <= KeyDepth(parent)
    ensures var p' := InsertFrom(p, parent, rest, table, n);
      Bijective(p') && |p'.refs| == |p.refs| && EndsWith(p'.lru, newest + Taken(p, parent, rest, table, n))
    decreases n
  {
    hide EndsWith, Bijective, Register, InsertFrom, Taken, Remove;
    InsertStep(p, parent, rest, table, n);
    if n == 0 || |rest| < p.blockSize || table == [] {
      assert newest + [] == newest;
    } else {
      var k := BlockHash(parent, rest[..p.blockSize]);
      RegisterIsBijective(p, k, table[0]);
      var p1 := Register(p, k, table[0]);
      var later := Taken(p1, k, rest[p.blockSize..], table[1..], n - 1);
      if k in p.byKey || table[0] !in p.keyOf {
        RenewEnds(p.lru, newest, k);
        InsertFromRenews(p1, k, rest[p.blockSize..], table[1..], n - 1, newest + [k]);
        assert newest + [k] + later == newest + ([k] + later);
      } else {
        RegisterTaken(p, k, table[0]);
        assert [] + later == later;
        InsertFromRenews(p1, k, rest[p.blockSize..], table[1..], n - 1, newest);
      }
    }
  }

  lemma InsertStep(p: Pool, parent: Key, rest: seq<int>, table: seq<nat>, n: nat)
    ensures if n == 0 || |rest| < p.blockSize || table == [] then
        InsertFrom(p, parent, rest, table, n) == p && Taken(p, parent, rest, table, n) == []
      else
        var k := BlockHash(parent, rest[..p.blockSize]);
        var p1 := Register(p, k, table[0]);
        && p1.blockSize == p.blockSize && KeyDepth(k) == KeyDepth(parent) + 1
        && InsertFrom(p, parent, rest, table, n) == InsertFrom(p1, k, rest[p.blockSize..], table[1..], n - 1)
        && Taken(p, parent, rest, table, n) ==
             (if k in p.byKey || table[0] !in p.keyOf then [k] else []) + Taken(p1, k, rest[p.blockSize..], table[1..], n - 1)
  {
  }

  lemma RegisterTaken(p: Pool, k: Key, b: nat)
    requires k !in p.byKey && b in p.keyOf
    ensures Register(p, k, b) == p
  {
  }

  /** The key of slot `j` may be taken: it is indexed already, or its block is not. */
  predicate Takable(p: Pool, k: Key, b: nat) {
    k in p.byKey || b !in p.keyOf
  }

  /** What was taken at slot `j`, in a table that names no block twice. */
  lemma {:induction false} TakenIff(p: Pool, parent: Key, rest: seq<int>, table: seq<nat>, n: nat, j: nat)
    requires p.blockSize > 0 && j < n <= |table| && n <= |Keys(parent, rest, p.blockSize)| && NoDup(table[..n])
    ensures Keys(parent, rest, p.blockSize)[j] in Taken(p, parent, rest, table, n) <==>
      Takable(p, Keys(parent, rest, p.blockSize)[j], table[j])
    decreases n
  {
    hide Register, Taken, InsertFrom, NoDup, Takable;
    var bs := p.blockSize;
    var k := BlockHash(parent, rest[..bs]);
    var p1 := Register(p, k, table[0]);
    InsertStep(p, parent, rest, table, n);
    KeyDepths(parent, rest, bs);
    TakenAreLater(p1, k, rest[bs..], table[1..], n - 1);
    if j > 0 {
      RestOfTable(table, n, j);
      TakenIff(p1, k, rest[bs..], table[1..], n - 1, j - 1);
      OtherTakable(p, k, table[0], Keys(parent, rest, bs)[j], table[j]);
    } else {
      assert Takable(p, k, table[0]) <==> k in p.byKey || table[0] !in p.keyOf by {
        TakableIs(p, k, table[0]);
      }
    }
  }

  lemma TakableIs(p: Pool, k: Key, b: nat)
    ensures Takable(p, k, b) <==> k in p.byKey || b !in p.keyOf
  {
  }

  lemma RestOfTable(table: seq<nat>, n: nat, j: nat)
    requires 0 < j < n <= |table| && NoDup(table[..n])
    ensures NoDup(table[1..][..n - 1]) && table[0] != table[j]
  {
    forall a, b | 0 <= a < b < n - 1 ensures table[1..][a] != table[1..][b] {
      assert table[..n][a + 1] != table[..n][b + 1];
    }
    assert table[..n][0] != table[..n][j];
  }

  lemma OtherTakable(p: Pool, k: Key, b: nat, k': Key, b': nat)
    requires k' != k && b' != b
    ensures Takable(Register(p, k, b), k', b') <==> Takable(p, k', b')
  {
    hide Remove;
  }

  lemma {:induction false} TakenAreLater(p: Pool, parent: Key, rest: seq<int>, table: seq<nat>, n: nat)
    ensures forall k :: k in Taken(p, parent, rest, table, n) ==> KeyDepth(k) > KeyDepth(parent)
    decreases n
  {
    if n > 0 && p.blockSize <= |rest| && table != [] {
      var k := BlockHash(parent, rest[..p.blockSize]);
      TakenAreLater(Register(p, k, table[0]), k, rest[p.blockSize..], table[1..], n - 1);
    }
  }

  /** What was not taken is not indexed, unless it was before. */
  lemma {:induction false} IndexedIsTaken(p: Pool, parent: Key, rest: seq<int>, table: seq<nat>, n: nat)
    ensures forall k :: k in InsertFrom(p, parent, rest, table, n).byKey ==> k in p.byKey || k in Taken(p, parent, rest, table, n)
    decreases n
  {
    if n > 0 && p.blockSize <= |rest| && table != [] {
      var k := BlockHash(parent, rest[..p.blockSize]);
      IndexedIsTaken(Register(p, k, table[0]), k, rest[p.blockSize..], table[1..], n - 1);
    }
  }

  /** Eviction drops the oldest keys only. */
  lemma {:induction false} EvictKeepsNewest(p: Pool, max: nat, newest: seq<Key>)
    requires Bijective(p) && EndsWith(p.lru, newest) && |newest| <= max
    ensures var p' := EvictTo(p, max);
      && Bijective(p') && EndsWith(p'.lru, newest) && (forall k :: k in newest ==> k in p'.byKey)
      && (forall k :: k in p'.byKey ==> k in p.byKey) && (|p.lru| <= max ==> p' == p)
    decreases |p.lru|
  {
    hide Bijective, DropOldest, EndsWith;
    if |p.lru| > max {
      DropIsBijective(p);
      EndsWithRest(p.lru, newest);
      EvictKeepsNewest(DropOldest(p), max, newest);
    } else {
      NewestAreIndexed(p, newest);
    }
  }

  lemma EndsWithRest(order: seq<Key>, newest: seq<Key>)
    requires EndsWith(order, newest) && |newest| < |order|
    ensures EndsWith(order[1..], newest)
  {
    var pre := order[..|order| - |newest|];
    assert order == pre + newest && order[1..] == pre[1..] + newest;
  }

  lemma NewestAreIndexed(p: Pool, newest: seq<Key>)
    requires Bijective(p) && EndsWith(p.lru, newest)
    ensures forall k :: k in newest ==> k in p.byKey
  {
    hide NoDup;
    forall k | k in newest ensures k in p.byKey {
      var j :| 0 <= j < |newest| && newest[j] == k;
      assert p.lru[|p.lru| - |newest|..][j] == k;
      assert p.lru[|p.lru| - |newest| + j] in p.lru;
    }
  }

  lemma DropIsBijective(p: Pool)
    requires Bijective(p) && p.lru != []
    ensures var p' := DropOldest(p);
      Bijective(p') && p'.lru == p.lru[1..] && forall k :: k in p'.byKey ==> k in p.byKey
  {
    hide NoDup, Bijective;
    var k := p.lru[0];
    assert k in p.lru;
    PairIn(p, k);
    assert DropOldest(p) == p.(lru := p.lru[1..], byKey := p.byKey - {k}, keyOf := p.keyOf - {p.byKey[k]});
    PairOut(p, k);
  }

  lemma PairIn(p: Pool, k: Key)
    requires Bijective(p) && k in p.lru
    ensures k in p.byKey && p.byKey[k] in p.keyOf && p.keyOf[p.byKey[k]] == k
  {
    hide NoDup;
  }

  lemma PairOut(p: Pool, k: Key)
    requires Bijective(p) && p.lru != [] && k == p.lru[0] && k in p.byKey && p.byKey[k] in p.keyOf && p.keyOf[p.byKey[k]] == k
    ensures Bijective(p.(lru := p.lru[1..], byKey := p.byKey - {k}, keyOf := p.keyOf - {p.byKey[k]}))
  {
    hide NoDup;
    FirstOut(p.lru);
  }

  /** What a finished cache's insert leaves: exactly the blocks that could be taken are indexed,
      if the complete ones fit the bound and are named once. */
  lemma InsertRegistersIff(s: System, tokens: seq<int>, i: nat, max: nat, n: nat, j: nat)
    requires s.pool.blockSize > 0 && i < |s.owners| && Inv(s) && n == InsertSlots(s, tokens, i) && j < n <= max
    requires n <= |s.owners[i].table| && n <= |Keys(Root, tokens, s.pool.blockSize)| && NoDup(s.owners[i].table[..n])
    ensures Keys(Root, tokens, s.pool.blockSize)[j] in Insert(s, tokens, i, max).pool.byKey <==>
      Takable(s.pool, Keys(Root, tokens, s.pool.blockSize)[j], s.owners[i].table[j])
  {
    hide Counted, OpenUnsealed, IndexTrue, Taken, InsertFrom, EvictTo, Keys, Takable, Bijective, NoDup;
    var p, t := s.pool, s.owners[i].table;
    TableInRange(s, i);
    InsertIsEvicted(s, tokens, i, max);
    InsertFromRenews(p, Root, tokens, t, n, []);
    TakenIff(p, Root, tokens, t, n, j);
    IndexedIsTaken(p, Root, tokens, t, n);
    var taken := Taken(p, Root, tokens, t, n);
    assert [] + taken == taken;
    EvictKeepsNewest(InsertFrom(p, Root, tokens, t, n), max, taken);
    BeforeIsTakable(p, Root, tokens, t, n, j);
    EndsWithNone(p.lru);
  }

  lemma EndsWithNone(order: seq<Key>)
    ensures EndsWith(order, [])
  {
  }

  lemma InsertIsEvicted(s: System, tokens: seq<int>, i: nat, max: nat)
    requires s.pool.blockSize > 0 && i < |s.owners| && s.owners[i].table != []
    ensures Insert(s, tokens, i, max).pool == EvictTo(InsertFrom(s.pool, Root, tokens, s.owners[i].table, InsertSlots(s, tokens, i)), max)
  {
    hide InsertFrom, EvictTo;
  }

  lemma TableInRange(s: System, i: nat)
    requires Inv(s) && i < |s.owners|
    ensures forall j :: 0 <= j < |s.owners[i].table| ==> s.owners[i].table[j] < |s.pool.refs|
  {
    hide OpenUnsealed, Bijective, IndexTrue, Counted;
    TablesInRange(s, i);
    forall j | 0 <= j < |s.owners[i].table| ensures s.owners[i].table[j] < |s.pool.refs| {
      assert s.owners[i].table[j] in s.owners[i].table;
    }
  }

  lemma BeforeIsTakable(p: Pool, parent: Key, rest: seq<int>, table: seq<nat>, n: nat, j: nat)
    requires p.blockSize > 0 && j < |Keys(parent, rest, p.blockSize)| && j < |table|
    ensures Keys(parent, rest, p.blockSize)[j] in p.byKey ==> Takable(p, Keys(parent, rest, p.blockSize)[j], table[j])
  {
  }

  lemma InsertSlotsFit(s: System, tokens: seq<int>, i: nat)
    requires s.pool.blockSize > 0 && i < |s.owners|
    ensures InsertSlots(s, tokens, i) <= |s.owners[i].table|
    ensures InsertSlots(s, tokens, i) <= |Keys(Root, tokens, s.pool.blockSize)|
    ensures InsertSlots(s, tokens, i) * s.pool.blockSize <= |tokens|
  {
    var bs, t := s.pool.blockSize, s.owners[i].table;
    var m := Min(Min(s.owners[i].length, |tokens|), |t| * bs);
    KeysCount(Root, tokens, bs);
    QuotientMonotone(m, |tokens|, bs);
    QuotientMonotone(m, |t| * bs, bs);
    MultipleIsFull(|t|, bs);
    assert m / bs * bs + m % bs == m;
  }

  /** Every complete block of the table that is indexed is indexed under its own key. */
  ghost predicate OwnKeys(s: System, tokens: seq<int>, i: nat)
    requires s.pool.blockSize > 0 && i < |s.owners|
  {
    var ks, n, t := Keys(Root, tokens, s.pool.blockSize), InsertSlots(s, tokens, i), s.owners[i].table;
    NoDup(t[..Min(n, |t|)]) && forall j :: 0 <= j < n && j < |t| && j < |ks| && t[j] in s.pool.keyOf ==> s.pool.keyOf[t[j]] == ks[j]
  }

  /** Then an insert indexes every complete block. */
  lemma InsertRegisters(s: System, tokens: seq<int>, i: nat, max: nat)
    requires Inv(s) && i < |s.owners| && InsertSlots(s, tokens, i) <= max && OwnKeys(s, tokens, i)
    ensures InsertSlots(s, tokens, i) <= |Keys(Root, tokens, s.pool.blockSize)|
    ensures forall k :: k in Keys(Root, tokens, s.pool.blockSize)[..InsertSlots(s, tokens, i)] ==> k in Insert(s, tokens, i, max).pool.byKey
  {
    hide Counted, OpenUnsealed, IndexTrue, Insert;
    InsertSlotsFit(s, tokens, i);
    var ks, n, t := Keys(Root, tokens, s.pool.blockSize), InsertSlots(s, tokens, i), s.owners[i].table;
    forall j: nat | j < n ensures ks[j] in Insert(s, tokens, i, max).pool.byKey {
      if t[j] in s.pool.keyOf {
        assert s.pool.keyOf[t[j]] in s.pool.byKey;
      }
      InsertRegistersIff(s, tokens, i, max, n, j);
    }
  }

  /** The round trip: a longer prompt that starts with the complete blocks matches them all. */
  lemma IndexedIsMatched(s: System, known: seq<int>, tokens: seq<int>)
    requires s.pool.blockSize > 0 && known <= tokens && |known| < |tokens|
    requires forall k :: k in Keys(Root, known, s.pool.blockSize) ==> k in s.pool.byKey
    ensures Match(s, tokens).1 >= |Keys(Root, known, s.pool.blockSize)| * s.pool.blockSize
  {
    var bs := s.pool.blockSize;
    var ids := MatchFrom(s.pool, Root, tokens).1;
    var ks, all := Keys(Root, known, bs), Keys(Root, Usable(tokens), bs);
    MatchFromIsLongest(s.pool, Root, tokens);
    KeysOfLonger(Root, known, Usable(tokens), bs);
    assert forall j :: 0 <= j < |ks| ==> all[j] == ks[j] && ks[j] in ks;
    TimesMonotone(|ks|, |ids|, bs);
  }

  lemma InsertThenMatch(s: System, tokens: seq<int>, i: nat, max: nat, more: seq<int>)
    requires Inv(s) && i < |s.owners| && ValidIds(tokens) && KnownTrue(s, i, tokens)
    requires InsertSlots(s, tokens, i) <= max && OwnKeys(s, tokens, i)
    requires var n := InsertSlots(s, tokens, i) * s.pool.blockSize; n <= |tokens| && tokens[..n] <= more && n < |more|
    ensures var s' := Insert(s, tokens, i, max);
      s'.pool.blockSize == s.pool.blockSize && Match(s', more).1 >= InsertSlots(s, tokens, i) * s.pool.blockSize
  {
    hide Counted, OpenUnsealed, Bijective, IndexTrue, Insert, Match, OwnKeys;
    var bs, m := s.pool.blockSize, InsertSlots(s, tokens, i);
    var known := tokens[..m * bs];
    InsertKeepsInv(s, tokens, i, max);
    InsertRegisters(s, tokens, i, max);
    KeysOfLonger(Root, known, tokens, bs);
    KeysCount(Root, known, bs);
    MultipleIsFull(m, bs);
    var s' := Insert(s, tokens, i, max);
    forall k | k in Keys(Root, known, bs) ensures k in s'.pool.byKey {
      var j :| 0 <= j < m && Keys(Root, known, bs)[j] == k;
      assert k == Keys(Root, tokens, bs)[..m][j];
    }
    IndexedIsMatched(s', known, more);
  }

  // -------------------------------------------------- either form of the prefix cache

  /** `m` is the length of the longest run of stored keys. */
  ghost predicate LongestStored(stored: set<Key>, ks: seq<Key>, m: nat) {
    m <= |ks| && (forall j :: 0 <= j < m ==> ks[j] in stored) && (m < |ks| ==> ks[m] !in stored)
  }

  /** The round trip for either form: what is stored of a text, a longer prompt finds. */
  lemma StoredIsMatched(stored: set<Key>, known: seq<int>, tokens: seq<int>, bs: nat, m: nat)
    requires bs > 0 && known <= tokens && |known| < |tokens|
    requires (forall k :: k in Keys(Root, known, bs) ==> k in stored) && LongestStored(stored, Keys(Root, Usable(tokens), bs), m)
    ensures m >= |Keys(Root, known, bs)| == |known| / bs
  {
    KeysOfLonger(Root, known, Usable(tokens), bs);
    KeysCount(Root, known, bs);
    var ks := Keys(Root, known, bs);
    assert forall j :: 0 <= j < |ks| ==> Keys(Root, Usable(tokens), bs)[j] == ks[j] && ks[j] in ks;
  }

  /** A run along all complete blocks, cut where a token must be left. */
  lemma CutRun(stored: set<Key>, tokens: seq<int>, bs: nat, found: nat)
    requires bs > 0 && LongestStored(stored, Keys(Root, tokens, bs), found)
    ensures LongestStored(stored, Keys(Root, Usable(tokens), bs), Min(found, |Usable(tokens)| / bs))
  {
    UsableIsPrefix(tokens);
    KeysOfLonger(Root, Usable(tokens), tokens, bs);
    KeysCount(Root, Usable(tokens), bs);
  }

  lemma UsableIsPrefix(tokens: seq<int>)
    ensures Usable(tokens) <= tokens
  {
  }

  // --------------------------------------------- a block that another chain claimed

  /** One layer, blocks of one token.  The first cache, of 7 and 5, is registered; the second has
      8 in a block of its own and shares the first one's block of 5, which in one layer is right for
      both. */
  function Claimed(): System {
    var k7 := BlockHash(Root, [7]);
    var k75 := BlockHash(k7, [5]);
    var store := Put(Put(Put(map[], 0, 0, 0, Truth([7], 0)), 0, 1, 0, Truth([7, 5], 0)), 0, 2, 0, Truth([8], 0));
    System(Pool(1, 1, [1, 2, 1], [], store, map[k7 := 0, k75 := 1], [k7, k75], map[0 := k7, 1 := k75]),
           [Owner([0, 1], 2), Owner([2, 1], 2)])
  }

  /** Its insert leaves the block of 5 where it is: 8 and 5 are matched for one block only. */
  lemma ClaimedIsNotRegistered() returns (s: System)
    ensures s.pool.blockSize == 1 && |s.owners| == 2 && Inv(s) && KnownTrue(s, 1, [8, 5]) && InsertSlots(s, [8, 5], 1) == 2
    ensures var s' := Insert(s, [8, 5], 1, 3); s'.pool.blockSize == 1 && Match(s', [8, 5, 6]).1 == 1
  {
    hide Inv, KnownTrue, Insert, Match, InsertSlots, Claimed, Takable, MatchFrom;
    s := Claimed();
    ClaimedShape();
    ClaimedIsConsistent();
    ClaimedIsTrue();
    ClaimedKeys();
    var ks := Keys(Root, [8, 5], 1);
    InsertRegistersIff(s, [8, 5], 1, 3, 2, 0);
    InsertRegistersIff(s, [8, 5], 1, 3, 2, 1);
    var s' := Insert(s, [8, 5], 1, 3);
    InsertKeepsInv(s, [8, 5], 1, 3);
    MatchFromIsLongest(s'.pool, Root, [8, 5, 6]);
    assert Usable([8, 5, 6]) == [8, 5];
    MatchCounts(s', [8, 5, 6]);
    assert |MatchFrom(s'.pool, Root, [8, 5, 6]).1| == 1;
  }

  lemma MatchCounts(s: System, tokens: seq<int>)
    requires s.pool.blockSize == 1
    ensures Match(s, tokens).1 == |MatchFrom(s.pool, Root, tokens).1|
  {
    hide MatchFrom;
  }

  lemma ClaimedShape()
    ensures var s := Claimed(); s.pool.blockSize == 1 && |s.owners| == 2 && s.owners[1] == Owner([2, 1], 2) && s.owners[0] == Owner([0, 1], 2)
    ensures NoDup(Claimed().owners[1].table[..2])
  {
    assert [2, 1][..2] == [2, 1];
  }

  lemma ClaimedIsConsistent()
    ensures Inv(Claimed())
  {
    hide Counted, OpenUnsealed, Bijective, IndexTrue;
    ClaimedIsCounted();
    ClaimedIsBijective();
    ClaimedIsSealed();
    ClaimedIndexIsTrue();
  }

  lemma ClaimedIsCounted()
    ensures Counted(Claimed())
  {
    ClaimedTotal();
    CountsOfThree(Claimed().pool, multiset{0, 1, 2, 1});
  }

  lemma ClaimedTotal()
    ensures Total(Claimed().owners) == multiset{0, 1, 2, 1}
  {
    var owners := Claimed().owners;
    assert owners[1..] == [owners[1]] && owners[1..][1..] == [];
    assert multiset([0 as nat, 1]) == multiset{0, 1} && multiset([2 as nat, 1]) == multiset{2, 1};
  }

  lemma CountsOfThree(p: Pool, uses: multiset<nat>)
    requires p.refs == [1, 2, 1] && p.free == [] && uses == multiset{0, 1, 2, 1}
    ensures CountedAs(p, uses)
  {
  }

  lemma ClaimedIsBijective()
    ensures Bijective(Claimed().pool)
  {
  }

  lemma ClaimedIsSealed()
    ensures Claimed().pool.blockSize > 0 && OpenUnsealed(Claimed())
  {
    var s := Claimed();
    forall i: nat, j: nat ensures !Open(s, i, j) {
      assert i < 2 ==> FullSlots(s.pool, s.owners[i]) == 2 && |s.owners[i].table| == 2;
    }
  }

  lemma ClaimedIndexIsTrue()
    ensures IndexTrue(Claimed().pool)
  {
    var p := Claimed().pool;
    forall b | b in p.keyOf ensures HoldsKey(p, b, p.keyOf[b]) {
      assert b == 0 || b == 1;
      ClaimedHolds(b);
    }
  }

  lemma ClaimedHolds(b: nat)
    requires b == 0 || b == 1
    ensures HoldsKey(Claimed().pool, b, Claimed().pool.keyOf[b])
  {
    hide HoldsKey;
    var p, k7 := Claimed().pool, BlockHash(Root, [7]);
    assert [] + [7] == [7] && [7] + [5] == [7, 5];
    OneTokenBlock(p, 0, Root, [], 7);
    OneTokenBlock(p, 1, k7, [7], 5);
  }

  lemma OneTokenBlock(p: Pool, b: nat, parent: Key, prefix: seq<int>, token: int)
    requires p.blockSize == 1 && p.depth == 1 && 0 <= token < TWO_32 && KeyTokens(parent) == prefix
    requires Get(p.store, 0, b, 0) == Truth(prefix + [token], 0)
    ensures HoldsKey(p, b, BlockHash(parent, [token])) && KeyTokens(BlockHash(parent, [token])) == prefix + [token]
  {
    hide Truth, Get;
    LowIsSame([token]);
    assert [token][..1] == [token];
  }

  lemma ClaimedIsTrue()
    ensures KnownTrue(Claimed(), 1, [8, 5]) && InsertSlots(Claimed(), [8, 5], 1) == 2
  {
    assert [8, 5][..1] == [8] && [8, 5][..2] == [8, 5];
  }

  lemma ClaimedKeys()
    ensures var k8 := BlockHash(Root, [8]);
      && Keys(Root, [8, 5], 1) == [k8, BlockHash(k8, [5])]
      && !Takable(Claimed().pool, BlockHash(k8, [5]), 1) && Takable(Claimed().pool, k8, 2)
  {
    assert [8, 5][..1] == [8] && [8, 5][1..] == [5] && [5][..1] == [5] && [5][1..] == [];
  }
}
