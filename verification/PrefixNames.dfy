/** Which tokens the blocks of a cache stand for, as long as caches take blocks only from their
    own prompt's match: an indexed block sits in every table under its own key, so registering a
    finished cache never meets a block that another chain has claimed. */
module PrefixNames {
  import opened Wrappers
  import opened Transformer
  import opened BlockPool
  import opened PoolSystem
  import opened PoolSteps
  import opened PagedCaches
  import opened PoolSharing
  import opened PrefixIndex
  import opened PoolCapacity
  import opened PrefixCaches
  import opened PrefixReuse

  /** The tokens each owner's shared blocks stand for. */
  type Names = map<nat, seq<int>>

  function NameOf(names: Names, i: nat): seq<int> {
    if i in names then names[i] else []
  }

  /** Block `b` is what slot `j` of a chain of `tokens` names. */
  ghost predicate IsNamed(p: Pool, b: nat, tokens: seq<int>, j: nat)
    requires p.blockSize > 0
  {
    b in p.keyOf ==> j < |Keys(Root, tokens, p.blockSize)| && p.keyOf[b] == Keys(Root, tokens, p.blockSize)[j]
  }

  ghost predicate TableNamed(p: Pool, table: seq<nat>, tokens: seq<int>)
    requires p.blockSize > 0
  {
    forall j :: 0 <= j < |table| ==> IsNamed(p, table[j], tokens, j)
  }

  /** Every indexed block in a table is indexed under its slot's key, and every block with two
      references is indexed. */
  ghost predicate Named(s: System, names: Names)
    requires s.pool.blockSize > 0
  {
    && (forall i :: 0 <= i < |s.owners| ==> TableNamed(s.pool, s.owners[i].table, NameOf(names, i)))
    && forall b: nat :: Ref(s.pool, b) > 1 ==> b in s.pool.keyOf
  }

  // ------------------------------------------------------------- blocks used once

  lemma TwiceInTable(t: seq<nat>, j: nat, k: nat)
    requires j < k < |t| && t[j] == t[k]
    ensures multiset(t)[t[j]] >= 2
  {
    assert t == t[..k] + [t[k]] + t[k + 1..];
    assert t[j] in t[..k] by {
      assert t[..k][j] == t[j];
    }
  }

  lemma TwoTables(owners: seq<Owner>, i: nat, u: nat, b: nat)
    requires i < |owners| && u < |owners| && u != i && b in owners[i].table && b in owners[u].table
    ensures Total(owners)[b] >= 2
  {
    TotalHasTwo(owners, Min(i, u), Max(i, u));
    assert b in multiset(owners[i].table) && b in multiset(owners[u].table);
  }

  /** A block that is not indexed sits in one slot of one table. */
  lemma UnindexedIsPrivate(s: System, names: Names, i: nat, j: nat, u: nat, v: nat)
    requires Inv(s) && Named(s, names) && i < |s.owners| && j < |s.owners[i].table| && u < |s.owners| && v < |s.owners[u].table|
    requires s.owners[i].table[j] == s.owners[u].table[v] && s.owners[i].table[j] !in s.pool.keyOf
    ensures i == u && j == v
  {
    hide OpenUnsealed, Bijective, IndexTrue;
    var b := s.owners[i].table[j];
    if i != u {
      TwoTables(s.owners, i, u, b);
    } else if j != v {
      TwiceInTable(s.owners[i].table, Min(j, v), Max(j, v));
      TotalHas(s.owners, i);
    }
    assert Ref(s.pool, b) == Total(s.owners)[b];
  }

  /** So no table names a block twice. */
  lemma TablesNameOnce(s: System, names: Names, i: nat)
    requires s.pool.blockSize > 0 && Inv(s) && Named(s, names) && i < |s.owners|
    ensures NoDup(s.owners[i].table)
  {
    hide Inv, Named;
    var t := s.owners[i].table;
    forall j: nat, k: nat | j < k < |t| ensures t[j] != t[k] {
      if t[j] == t[k] {
        if t[j] in s.pool.keyOf {
          NamedOnce(s, names, i, j, k);
        } else {
          UnindexedIsPrivate(s, names, i, j, i, k);
        }
      }
    }
  }

  lemma NamedOnce(s: System, names: Names, i: nat, j: nat, k: nat)
    requires s.pool.blockSize > 0 && Named(s, names) && i < |s.owners| && j < k < |s.owners[i].table|
    requires s.owners[i].table[j] in s.pool.keyOf
    ensures s.owners[i].table[j] != s.owners[i].table[k]
  {
    var t, ks := s.owners[i].table, Keys(Root, NameOf(names, i), s.pool.blockSize);
    assert TableNamed(s.pool, t, NameOf(names, i));
    assert IsNamed(s.pool, t[j], NameOf(names, i), j) && IsNamed(s.pool, t[k], NameOf(names, i), k);
    if k < |ks| {
      PrefixReuse.KeysDiffer(NameOf(names, i), s.pool.blockSize, j, k);
    }
  }

  // ------------------------------------------------------------- what keeps names

  /** Fewer keys, no more references: names stay. */
  ghost predicate IndexShrinks(p: Pool, p': Pool) {
    && p'.blockSize == p.blockSize
    && forall b :: b in p'.keyOf ==> b in p.keyOf && p'.keyOf[b] == p.keyOf[b]
  }

  lemma NamedInSmaller(p: Pool, p': Pool, table: seq<nat>, tokens: seq<int>)
    requires p.blockSize > 0 && TableNamed(p, table, tokens) && IndexShrinks(p, p')
    ensures TableNamed(p', table, tokens)
  {
    forall j | 0 <= j < |table| ensures IsNamed(p', table[j], tokens, j) {
      assert IsNamed(p, table[j], tokens, j);
    }
  }

  lemma NewKeepsNamed(s: System, names: Names)
    requires s.pool.blockSize > 0 && Named(s, names) && |s.owners| !in names
    ensures Named(NewCache(s), names[|s.owners| := []])
  {
    var s', names' := NewCache(s), names[|s.owners| := []];
    forall i: nat | i < |s'.owners| ensures TableNamed(s'.pool, s'.owners[i].table, NameOf(names', i)) {
      if i < |s.owners| {
        assert TableNamed(s.pool, s.owners[i].table, NameOf(names, i));
      }
    }
  }

  lemma FreeKeepsNamed(s: System, names: Names, i: nat)
    requires Inv(s) && Named(s, names) && i < |s.owners|
    ensures Free(s, i).pool.blockSize == s.pool.blockSize && Named(Free(s, i), names - {i})
  {
    hide OpenUnsealed, Bijective, IndexTrue, CountedAs;
    var s', names' := Free(s, i), names - {i};
    FreeCounts(s, i);
    forall u: nat | u < |s'.owners| ensures TableNamed(s'.pool, s'.owners[u].table, NameOf(names', u)) {
      if u != i {
        assert TableNamed(s.pool, s.owners[u].table, NameOf(names, u));
        NamedInSmaller(s.pool, s'.pool, s.owners[u].table, NameOf(names, u));
      }
    }
    forall b: nat | Ref(s'.pool, b) > 1 ensures b in s'.pool.keyOf {
      FreeCountsLess(s, i, b);
    }
  }

  lemma FreeCountsLess(s: System, i: nat, b: nat)
    requires Inv(s) && i < |s.owners|
    ensures Ref(Free(s, i).pool, b) <= Ref(s.pool, b)
  {
    hide OpenUnsealed, Bijective, IndexTrue;
    FreeCounts(s, i);
    UsesAfterUpdate(s.owners, i, Owner([], 0), b);
    assert Ref(s.pool, b) == Total(s.owners)[b] && Ref(Free(s, i).pool, b) == Total(Free(s, i).owners)[b];
  }

  // ------------------------------------------------------------------------ match

  /** The matched blocks are indexed under the keys of the prompt. */
  lemma MatchKeepsNamed(s: System, names: Names, tokens: seq<int>)
    requires Inv(s) && Named(s, names) && |s.owners| !in names
    ensures var (s', n) := Match(s, tokens);
      s'.pool.blockSize == s.pool.blockSize && Named(s', if n > 0 then names[|s.owners| := tokens] else names)
  {
    hide OpenUnsealed, IndexTrue, Match, MatchFrom, NoDup, TableNamed;
    var (p', ids) := MatchFrom(s.pool, Root, tokens);
    MatchShape(s, tokens);
    if ids != [] {
      var names', s' := names[|s.owners| := tokens], System(p', s.owners + [Owner(ids, |ids| * s.pool.blockSize)]);
      MatchFromCounts(s.pool, Total(s.owners), Root, tokens);
      MatchedAreNamed(s.pool, tokens);
      forall i: nat | i < |s'.owners| ensures TableNamed(p', s'.owners[i].table, NameOf(names', i)) {
        if i < |s.owners| {
          assert TableNamed(s.pool, s.owners[i].table, NameOf(names, i));
          NamedInSmaller(s.pool, p', s.owners[i].table, NameOf(names, i));
        } else {
          NamedInSmaller(s.pool, p', ids, tokens);
        }
      }
      forall b: nat | Ref(p', b) > 1 ensures b in p'.keyOf {
        assert Ref(p', b) == (Total(s.owners) + multiset(ids))[b] && Ref(s.pool, b) == Total(s.owners)[b];
        assert b in ids || multiset(ids)[b] == 0;
      }
    }
  }

  lemma MatchShape(s: System, tokens: seq<int>)
    requires s.pool.blockSize > 0
    ensures var (p', ids) := MatchFrom(s.pool, Root, tokens);
      if ids == [] then Match(s, tokens) == (s, 0)
      else Match(s, tokens).0 == System(p', s.owners + [Owner(ids, |ids| * s.pool.blockSize)]) && Match(s, tokens).1 > 0
  {
    hide MatchFrom;
    var ids := MatchFrom(s.pool, Root, tokens).1;
    if ids != [] {
      TimesMonotone(1, |ids|, s.pool.blockSize);
    }
  }

  lemma MatchedAreNamed(p: Pool, tokens: seq<int>)
    requires p.blockSize > 0 && Bijective(p)
    ensures TableNamed(p, MatchFrom(p, Root, tokens).1, tokens)
  {
    hide MatchFrom, Keys, Usable, NoDup;
    var ids := MatchFrom(p, Root, tokens).1;
    MatchFromIsLongest(p, Root, tokens);
    assert Usable(tokens) <= tokens by {
      UsableIsPrefix(tokens);
    }
    KeysOfLonger(Root, Usable(tokens), tokens, p.blockSize);
    forall j | 0 <= j < |ids| ensures IsNamed(p, ids[j], tokens, j) {
      assert p.byKey[Keys(Root, Usable(tokens), p.blockSize)[j]] == ids[j];
    }
  }

  // ----------------------------------------------------------------------- extend

  /** What one column does to the owner's table: nothing, or a fresh block behind it. */
  lemma AppendEffect(s: System, names: Names, i: nat, es: seq<KV>)
    requires s.pool.blockSize > 0 && Inv(s) && Named(s, names) && i < |s.owners| && es != [] && Append(s, i, es).Some?
    ensures var s' := Append(s, i, es).value;
      && |s'.owners| == |s.owners| && (forall u :: 0 <= u < |s.owners| && u != i ==> s'.owners[u] == s.owners[u])
      && IndexShrinks(s.pool, s'.pool)
      && (if FullSlots(s.pool, s.owners[i]) < |s.owners[i].table|
          then s'.owners[i].table == s.owners[i].table && s'.pool == s.pool.(store := s'.pool.store)
          else s.pool.free != [] && var b := s.pool.free[0];
               s'.owners[i].table == s.owners[i].table + [b] && b !in s'.pool.keyOf &&
               s'.pool.refs == SetRef(s.pool.refs, b, 1) && s'.pool.keyOf == s.pool.keyOf - {b})
  {
    hide Counted, Bijective, IndexTrue, WriteLayers;
    var pos, t := s.owners[i].length, s.owners[i].table;
    var j := FullSlots(s.pool, s.owners[i]);
    assert Sized(s.pool, s.owners[i]);
    if j < |t| {
      assert Open(s, i, j);
      PrivateWrites(s.pool, t, pos, es, 0);
    } else {
      FreshBlock(s, i, es);
    }
  }

  lemma FreshBlock(s: System, i: nat, es: seq<KV>)
    requires s.pool.blockSize > 0 && Inv(s) && i < |s.owners| && es != [] && Append(s, i, es).Some?
    requires FullSlots(s.pool, s.owners[i]) == |s.owners[i].table|
    ensures s.pool.free != []
    ensures var b, s' := s.pool.free[0], Append(s, i, es).value;
      && s' == System(s'.pool, s.owners[i := Owner(s.owners[i].table + [b], s.owners[i].length + 1)])
      && s'.pool.refs == SetRef(s.pool.refs, b, 1) && s'.pool.keyOf == s.pool.keyOf - {b} && s'.pool.blockSize == s.pool.blockSize
  {
    hide OpenUnsealed, Bijective, IndexTrue, Put;
    var pos, t := s.owners[i].length, s.owners[i].table;
    AllocTakesOne(s);
    var (p1, b) := Alloc(s.pool).value;
    assert b in s.pool.free;
    var r := WriteAt(s.pool, t, pos, 0, es[0]).value;
    PrivateWrites(r.0, r.1, pos, es, 1);
  }

  lemma AppendKeepsNamed(s: System, names: Names, i: nat, es: seq<KV>)
    requires s.pool.blockSize > 0 && Inv(s) && Named(s, names) && i < |s.owners| && es != [] && Append(s, i, es).Some?
    ensures var s' := Append(s, i, es).value;
      s'.pool.blockSize == s.pool.blockSize && |s'.owners| == |s.owners| && Named(s', names)
  {
    hide Inv, Append, TableNamed;
    AppendEffect(s, names, i, es);
    var s' := Append(s, i, es).value;
    forall u: nat | u < |s'.owners| ensures TableNamed(s'.pool, s'.owners[u].table, NameOf(names, u)) {
      NamedInSmaller(s.pool, s'.pool, s.owners[u].table, NameOf(names, u));
      if u == i && FullSlots(s.pool, s.owners[i]) >= |s.owners[i].table| {
        NamedOneMore(s'.pool, s.owners[i].table, s.pool.free[0], NameOf(names, i));
      }
    }
  }

  lemma NamedOneMore(p: Pool, table: seq<nat>, b: nat, tokens: seq<int>)
    requires p.blockSize > 0 && TableNamed(p, table, tokens) && b !in p.keyOf
    ensures TableNamed(p, table + [b], tokens)
  {
    forall j | 0 <= j < |table + [b]| ensures IsNamed(p, (table + [b])[j], tokens, j) {
      assert j < |table| ==> IsNamed(p, table[j], tokens, j);
    }
  }

  lemma {:induction false} AppendAllKeepsNamed(s: System, names: Names, i: nat, cols: seq<seq<KV>>)
    requires s.pool.blockSize > 0 && Inv(s) && Named(s, names) && i < |s.owners| && s.pool.depth > 0 && AppendAll(s, i, cols).Some?
    requires forall c :: 0 <= c < |cols| ==> |cols[c]| == s.pool.depth
    ensures var s' := AppendAll(s, i, cols).value; s'.pool.blockSize == s.pool.blockSize && Named(s', names)
    decreases |cols|
  {
    hide Inv, Append, Named;
    if cols != [] {
      AppendKeepsNamed(s, names, i, cols[0]);
      AppendKeepsInv(s, i, cols[0]);
      AppendKeepsDepth(s, i, cols[0]);
      AppendAllKeepsNamed(Append(s, i, cols[0]).value, names, i, cols[1..]);
    }
  }

  // ----------------------------------------------------------------------- insert

  /** An insert adds the pairs of its slots and changes no other. */
  lemma {:induction false} InsertedPairs(p: Pool, parent: Key, rest: seq<int>, table: seq<nat>, n: nat, b: nat)
    requires p.blockSize > 0 && n <= |table| && n <= |Keys(parent, rest, p.blockSize)|
    ensures var p' := InsertFrom(p, parent, rest, table, n);
      && p'.blockSize == p.blockSize
      && (b in p.keyOf ==> b in p'.keyOf && p'.keyOf[b] == p.keyOf[b])
      && (b in p'.keyOf && b !in p.keyOf ==>
            exists j: nat :: j < n && table[j] == b && p'.keyOf[b] == Keys(parent, rest, p.blockSize)[j])
    decreases n
  {
    hide Register, InsertFrom, Taken;
    InsertStep(p, parent, rest, table, n);
    if n > 0 {
      var k := BlockHash(parent, rest[..p.blockSize]);
      var p1 := Register(p, k, table[0]);
      RegisteredPair(p, k, table[0], b);
      InsertedPairs(p1, k, rest[p.blockSize..], table[1..], n - 1, b);
      var p' := InsertFrom(p, parent, rest, table, n);
      if b in p'.keyOf && b !in p.keyOf {
        if b in p1.keyOf {
          assert table[0] == b && p'.keyOf[b] == Keys(parent, rest, p.blockSize)[0];
        } else {
          var j: nat :| j < n - 1 && table[1..][j] == b && p'.keyOf[b] == Keys(k, rest[p.blockSize..], p.blockSize)[j];
          assert table[j + 1] == b && p'.keyOf[b] == Keys(parent, rest, p.blockSize)[j + 1];
        }
      }
    }
  }

  lemma RegisteredPair(p: Pool, k: Key, b0: nat, b: nat)
    ensures var p1 := Register(p, k, b0);
      && (b in p.keyOf ==> b in p1.keyOf && p1.keyOf[b] == p.keyOf[b])
      && (b in p1.keyOf && b !in p.keyOf ==> b == b0 && p1.keyOf[b] == k)
  {
    hide Remove;
  }

  /** The index never holds more keys than there are blocks. */
  lemma IndexFits(p: Pool)
    requires Bijective(p)
    ensures |p.lru| <= |p.refs|
  {
    var bs: seq<nat> := seq(|p.lru|, i requires 0 <= i < |p.lru| => BlockOf(p, p.lru[i]));
    forall i | 0 <= i < |p.lru| ensures bs[i] < |p.refs| && bs[i] in p.keyOf && p.keyOf[bs[i]] == p.lru[i] {
      assert p.lru[i] in p.lru;
    }
    forall i, j | 0 <= i < j < |bs| ensures bs[i] != bs[j] {
      assert p.lru[i] != p.lru[j];
    }
    DistinctBelow(bs, |p.refs|);
  }

  function BlockOf(p: Pool, k: Key): nat {
    if k in p.byKey then p.byKey[k] else 0
  }

  lemma HasFirst(s: seq<nat>)
    ensures s != [] ==> exists x: nat :: x in s
  {
    if s != [] {
      assert s[0] in s;
    }
  }

  lemma {:induction false} DistinctBelow(s: seq<nat>, n: nat)
    requires NoDup(s) && forall x :: x in s ==> x < n
    ensures |s| <= n
    decreases n
  {
    hide NoDup, Remove;
    if n == 0 {
      HasFirst(s);
    } else {
      RemoveNoDup<nat>(s, n - 1);
      DistinctBelow(Remove<nat>(s, n - 1), n - 1);
    }
  }

  /** The complete blocks of a named cache are their own: each is free to be registered. */
  lemma NamedOwnKeys(s: System, names: Names, tokens: seq<int>, i: nat)
    requires s.pool.blockSize > 0 && Inv(s) && Named(s, names) && i < |s.owners| && NameOf(names, i) <= tokens
    ensures OwnKeys(s, tokens, i)
  {
    hide Inv, Keys, InsertSlots;
    var t, n := s.owners[i].table, InsertSlots(s, tokens, i);
    var ks, own := Keys(Root, tokens, s.pool.blockSize), Keys(Root, NameOf(names, i), s.pool.blockSize);
    TablesNameOnce(s, names, i);
    KeysOfLonger(Root, NameOf(names, i), tokens, s.pool.blockSize);
    assert TableNamed(s.pool, t, NameOf(names, i));
    forall j | 0 <= j < n && j < |t| && j < |ks| && t[j] in s.pool.keyOf ensures s.pool.keyOf[t[j]] == ks[j] {
      assert IsNamed(s.pool, t[j], NameOf(names, i), j);
    }
  }

  lemma SlotsFitPool(s: System, names: Names, tokens: seq<int>, i: nat)
    requires s.pool.blockSize > 0 && Inv(s) && Named(s, names) && i < |s.owners|
    ensures InsertSlots(s, tokens, i) <= |s.owners[i].table| <= |s.pool.refs|
  {
    hide Inv, Named, InsertSlots;
    TablesNameOnce(s, names, i);
    InsertSlotsFit(s, tokens, i);
    TablesInRange(s, i);
    DistinctBelow(s.owners[i].table, |s.pool.refs|);
  }

  /** A bound of the pool's own size never evicts. */
  lemma InsertWithoutEviction(s: System, tokens: seq<int>, i: nat, max: nat)
    requires s.pool.blockSize > 0 && Inv(s) && i < |s.owners| && |s.pool.refs| <= max
    ensures Insert(s, tokens, i, max) ==
      s.(pool := if s.owners[i].table == [] then s.pool else InsertFrom(s.pool, Root, tokens, s.owners[i].table, InsertSlots(s, tokens, i)))
  {
    hide Counted, OpenUnsealed, IndexTrue, InsertFrom, EvictTo, Bijective, InsertSlots;
    var t := s.owners[i].table;
    if t != [] {
      TableInRange(s, i);
      EndsWithNone(s.pool.lru);
      InsertFromRenews(s.pool, Root, tokens, t, InsertSlots(s, tokens, i), []);
      var p' := InsertFrom(s.pool, Root, tokens, t, InsertSlots(s, tokens, i));
      IndexFits(p');
      EndsWithNone(p'.lru);
      EvictKeepsNewest(p', max, []);
      InsertIsEvicted(s, tokens, i, max);
    }
    InsertOwners(s, tokens, i, max);
  }

  lemma InsertOwners(s: System, tokens: seq<int>, i: nat, max: nat)
    requires s.pool.blockSize > 0 && i < |s.owners|
    ensures var s' := Insert(s, tokens, i, max); s' == s.(pool := s'.pool) && (s.owners[i].table == [] ==> s' == s)
  {
    hide InsertFrom, EvictTo;
  }

  lemma {:induction false} InsertFromKeepsRefs(p: Pool, parent: Key, rest: seq<int>, table: seq<nat>, n: nat)
    ensures InsertFrom(p, parent, rest, table, n).refs == p.refs && InsertFrom(p, parent, rest, table, n).blockSize == p.blockSize
    decreases n
  {
    hide InsertFrom, Taken, Remove;
    InsertStep(p, parent, rest, table, n);
    if n > 0 && p.blockSize <= |rest| && table != [] {
      var k := BlockHash(parent, rest[..p.blockSize]);
      InsertFromKeepsRefs(Register(p, k, table[0]), k, rest[p.blockSize..], table[1..], n - 1);
    }
  }

  /** Registering a finished cache keeps all names; its own grows to all of its tokens. */
  lemma InsertKeepsNamed(s: System, names: Names, tokens: seq<int>, i: nat, max: nat)
    requires s.pool.blockSize > 0 && Inv(s) && Named(s, names) && i < |s.owners| && NameOf(names, i) <= tokens && |s.pool.refs| <= max
    ensures var s' := Insert(s, tokens, i, max);
      s'.pool.blockSize == s.pool.blockSize && Named(s', names[i := tokens])
  {
    hide Inv, Keys, InsertSlots, InsertFrom, Insert, Named;
    var s', names' := Insert(s, tokens, i, max), names[i := tokens];
    InsertWithoutEviction(s, tokens, i, max);
    InsertFromKeepsRefs(s.pool, Root, tokens, s.owners[i].table, InsertSlots(s, tokens, i));
    forall u: nat | u < |s'.owners| ensures TableNamed(s'.pool, s'.owners[u].table, NameOf(names', u)) {
      forall v: nat | v < |s'.owners[u].table| ensures IsNamed(s'.pool, s'.owners[u].table[v], NameOf(names', u), v) {
        InsertKeepsName(s, names, tokens, i, max, u, v);
      }
    }
    forall b: nat | Ref(s'.pool, b) > 1 ensures b in s'.pool.keyOf {
      InsertKeepsShared(s, names, tokens, i, max, b);
    }
    assert Named(s', names') by {
      NamedFrom(s', names');
    }
  }

  lemma NamedFrom(s: System, names: Names)
    requires s.pool.blockSize > 0 && forall u: nat :: u < |s.owners| ==> TableNamed(s.pool, s.owners[u].table, NameOf(names, u))
    requires forall b: nat :: Ref(s.pool, b) > 1 ==> b in s.pool.keyOf
    ensures Named(s, names)
  {
  }

  lemma InsertKeepsShared(s: System, names: Names, tokens: seq<int>, i: nat, max: nat, b: nat)
    requires s.pool.blockSize > 0 && Inv(s) && Named(s, names) && i < |s.owners| && |s.pool.refs| <= max
    requires Ref(Insert(s, tokens, i, max).pool, b) > 1
    ensures b in Insert(s, tokens, i, max).pool.keyOf
  {
    hide Inv, Keys, InsertFrom, Insert, InsertSlots;
    InsertWithoutEviction(s, tokens, i, max);
    var t, n := s.owners[i].table, InsertSlots(s, tokens, i);
    if t != [] {
      InsertFromKeepsRefs(s.pool, Root, tokens, t, n);
      InsertSlotsFit(s, tokens, i);
      InsertedPairs(s.pool, Root, tokens, t, n, b);
    }
  }

  lemma InsertKeepsName(s: System, names: Names, tokens: seq<int>, i: nat, max: nat, u: nat, v: nat)
    requires s.pool.blockSize > 0 && Inv(s) && Named(s, names) && i < |s.owners| && NameOf(names, i) <= tokens && |s.pool.refs| <= max
    requires u < |s.owners| && v < |s.owners[u].table|
    ensures var s' := Insert(s, tokens, i, max);
      s'.pool.blockSize == s.pool.blockSize && IsNamed(s'.pool, s.owners[u].table[v], NameOf(names[i := tokens], u), v)
  {
    hide Inv, Keys, InsertFrom, Insert, InsertSlots;
    InsertWithoutEviction(s, tokens, i, max);
    InsertFromKeepsRefs(s.pool, Root, tokens, s.owners[i].table, InsertSlots(s, tokens, i));
    InsertSlotsFit(s, tokens, i);
    var t, n, b := s.owners[i].table, InsertSlots(s, tokens, i), s.owners[u].table[v];
    assert TableNamed(s.pool, s.owners[u].table, NameOf(names, u)) && IsNamed(s.pool, b, NameOf(names, u), v);
    KeysOfLonger(Root, NameOf(names, i), tokens, s.pool.blockSize);
    InsertedPairs(s.pool, Root, tokens, t, n, b);
    var p' := InsertFrom(s.pool, Root, tokens, t, n);
    if t != [] && b in p'.keyOf && b !in s.pool.keyOf {
      var j: nat :| j < n && t[j] == b && p'.keyOf[b] == Keys(Root, tokens, s.pool.blockSize)[j];
      UnindexedIsPrivate(s, names, i, j, u, v);
    }
  }

  /** After the insert every complete block of the cache is indexed under its key. */
  lemma InsertStoresAll(s: System, names: Names, tokens: seq<int>, i: nat, max: nat, n: nat)
    requires s.pool.blockSize > 0 && Inv(s) && Named(s, names) && i < |s.owners| && NameOf(names, i) <= tokens && |s.pool.refs| <= max
    requires n == Min(s.owners[i].length, |tokens|)
    ensures |Keys(Root, tokens[..n], s.pool.blockSize)| <= max
    ensures forall k :: k in Keys(Root, tokens[..n], s.pool.blockSize) ==> k in Insert(s, tokens, i, max).pool.byKey
  {
    hide Inv, Named, Keys, Insert, OwnKeys;
    var bs, m := s.pool.blockSize, InsertSlots(s, tokens, i);
    AllSlots(s, tokens, i, n);
    SlotsFitPool(s, names, tokens, i);
    NamedOwnKeys(s, names, tokens, i);
    InsertRegisters(s, tokens, i, max);
    KeysCount(Root, tokens[..n], bs);
    KeysOfLonger(Root, tokens[..n], tokens, bs);
    forall k | k in Keys(Root, tokens[..n], bs) ensures k in Insert(s, tokens, i, max).pool.byKey {
      var j :| 0 <= j < |Keys(Root, tokens[..n], bs)| && Keys(Root, tokens[..n], bs)[j] == k;
      assert k == Keys(Root, tokens, bs)[..m][j];
    }
  }

  lemma AllSlots(s: System, tokens: seq<int>, i: nat, n: nat)
    requires s.pool.blockSize > 0 && Inv(s) && i < |s.owners| && n == Min(s.owners[i].length, |tokens|)
    ensures InsertSlots(s, tokens, i) == n / s.pool.blockSize
  {
    hide OpenUnsealed, Bijective, IndexTrue, Counted;
    var o, bs := s.owners[i], s.pool.blockSize;
    assert Sized(s.pool, o);
    QuotientMonotone(n, o.length, bs);
    if |o.table| * bs < n {
      TimesMonotone(n / bs, |o.table|, bs);
      MultipleIsFull(|o.table|, bs);
      QuotientMonotone(|o.table| * bs, n, bs);
    }
  }
}
