/** Every interleaving of cache operations over one pool, as runs of a state machine, and
    the simulation of each run by private lists with nothing shared. */
module PagedRuns {
  import opened Wrappers
  import opened Transformer
  import opened BlockPool
  import opened PoolSystem
  import opened PoolSteps
  import opened PagedCaches
  import opened PoolSharing
  import opened PrefixIndex
  import opened PoolCapacity

  datatype Op =
    | New                                   // a fresh cache
    | Extend(i: nat, cols: seq<seq<KV>>)    // append_from_output, init_from_prefill
    | Fork(i: nat)
    | Adopt(i: nat, n: nat)                 // a fresh cache adopts the first n blocks of cache i
    | Release(i: nat)                       // free, or the references of a dropped match
    | Match(tokens: seq<int>)
    | Insert(tokens: seq<int>, i: nat, max: nat)

  /** The concrete step; `None` when it raises (no block left, or no such cache). */
  function Step(s: System, op: Op): Option<System>
    requires s.pool.blockSize > 0
  {
    match op
    case New => Some(NewCache(s))
    case Extend(i, cols) => if i < |s.owners| then AppendAll(s, i, cols) else None
    case Fork(i) => if i < |s.owners| then Some(PoolSharing.Fork(s, i)) else None
    case Adopt(i, n) =>
      if i < |s.owners| && n <= |s.owners[i].table| then Some(PoolSharing.Adopt(s, s.owners[i].table[..n])) else None
    case Release(i) => if i < |s.owners| then Some(Free(s, i)) else None
    case Match(tokens) => Some(PrefixIndex.Match(s, tokens).0)
    case Insert(tokens, i, max) => if i < |s.owners| then Some(PrefixIndex.Insert(s, tokens, i, max)) else None
  }

  function Run(s: System, ops: seq<Op>): Option<System>
    requires s.pool.blockSize > 0
    decreases |ops|
  {
    if ops == [] then Some(s) else
      match Step(s, ops[0])
      case None => None
      case Some(s1) => if s1.pool.blockSize > 0 then Run(s1, ops[1..]) else None
  }

  // ------------------------------------------------------- the list machine

  /** One private list of columns per owner. */
  type PrivateLists = seq<seq<seq<KV>>>

  ghost function Abs(s: System, n: nat): (r: PrivateLists)
    requires n <= |s.owners|
    ensures |r| == n && forall i :: 0 <= i < n ==> r[i] == Contents(s, i)
  {
    if n == 0 then [] else Abs(s, n - 1) + [Contents(s, n - 1)]
  }

  ghost function Lists(s: System): (r: PrivateLists)
    ensures |r| == |s.owners|
  {
    Abs(s, |s.owners|)
  }

  /** A cache may be registered for tokens whose entries it holds. */
  ghost predicate ListKnown(list: seq<seq<KV>>, tokens: seq<int>, depth: nat) {
    forall k :: 0 <= k < |list| && k < |tokens| ==> list[k] == TruthColumn(tokens, k, depth)
  }

  /** What the callers owe: whole columns, complete blocks, hashable ids, and correct entries
      when registering. */
  ghost predicate Legal(lists: PrivateLists, depth: nat, size: nat, op: Op) {
    match op
    case Adopt(i, n) => i < |lists| ==> n * size <= |lists[i]|
    case Extend(i, cols) => forall c :: 0 <= c < |cols| ==> |cols[c]| == depth
    case Match(tokens) => ValidIds(tokens)
    case Insert(tokens, i, max) => ValidIds(tokens) && (i < |lists| ==> ListKnown(lists[i], tokens, depth))
    case _ => true
  }

  /** The same operation on private lists: nothing is shared, so nothing can interfere. */
  ghost predicate ListStep(lists: PrivateLists, depth: nat, size: nat, op: Op, lists': PrivateLists) {
    match op
    case New => lists' == lists + [[]]
    case Extend(i, cols) => i < |lists| && lists' == lists[i := lists[i] + cols]
    case Fork(i) => i < |lists| && lists' == lists + [lists[i]]
    case Adopt(i, n) => i < |lists| && n * size <= |lists[i]| && lists' == lists + [lists[i][..n * size]]
    case Release(i) => i < |lists| && lists' == lists[i := []]
    case Match(tokens) => lists' == lists || (exists list :: lists' == lists + [list] && CachedPrefix(list, tokens, depth))
    case Insert(tokens, i, max) => lists' == lists
  }

  /** A non-empty correct cache of a proper prefix of `tokens`. */
  ghost predicate CachedPrefix(list: seq<seq<KV>>, tokens: seq<int>, depth: nat) {
    0 < |list| < |tokens| && ContentsTrue(list, tokens, depth)
  }

  ghost predicate ListRun(lists: PrivateLists, depth: nat, size: nat, ops: seq<Op>, lists': PrivateLists)
    decreases |ops|
  {
    if ops == [] then lists' == lists
    else exists mid :: ListStep(lists, depth, size, ops[0], mid) && ListRun(mid, depth, size, ops[1..], lists')
  }

  /** Every operation of the run is legal when its turn comes. */
  ghost predicate AllLegal(s: System, ops: seq<Op>)
    requires s.pool.blockSize > 0
    decreases |ops|
  {
    ops != [] ==>
      Legal(Lists(s), s.pool.depth, s.pool.blockSize, ops[0]) &&
      var r := Step(s, ops[0]);
      r.Some? && r.value.pool.blockSize > 0 ==> AllLegal(r.value, ops[1..])
  }

  ghost predicate SameShape(s: System, s': System) {
    s'.pool.depth == s.pool.depth && s'.pool.blockSize == s.pool.blockSize
  }

  lemma ExtendRefines(s: System, i: nat, cols: seq<seq<KV>>, s': System)
    requires Inv(s) && i < |s.owners| && Grown(s, s', i, cols)
    ensures Lists(s') == Lists(s)[i := Lists(s)[i] + cols]
  {
  }

  lemma AddedRefines(s: System, s': System)
    requires Inv(s) && |s'.owners| == |s.owners| + 1 && OthersKept(s, s', |s.owners|)
    ensures Lists(s') == Lists(s) + [Contents(s', |s.owners|)]
  {
  }

  /** The first `n` blocks of a table show the same entries through any pool with this store. */
  lemma FirstBlocksShow(p: Pool, t: seq<nat>, p': Pool, n: nat, size: nat)
    requires p.blockSize > 0 && n <= |t| && size == n * p.blockSize
    requires p'.store == p.store && p'.blockSize == p.blockSize && p'.depth == p.depth
    ensures Columns(p', t[..n], size) == Columns(p, t, size)
  {
    forall l: nat, k: nat | l < p.depth && k < size ensures Lookup(p', t[..n], l, k) == Lookup(p, t, l, k) {
      SlotOfPosition(k, n, p.blockSize);
    }
    SameColumns(p, t, p', t[..n], size);
  }

  lemma FirstColumns(p: Pool, t: seq<nat>, m: nat, n: nat)
    requires m <= n
    ensures Columns(p, t, n)[..m] == Columns(p, t, m)
  {
  }

  lemma AdoptedEntries(s: System, i: nat, n: nat, size: nat)
    requires Inv(s) && i < |s.owners| && n <= |s.owners[i].table| && size == n * s.pool.blockSize <= s.owners[i].length
    ensures var s' := PoolSharing.Adopt(s, s.owners[i].table[..n]);
      SameShape(s, s') && |s'.owners| == |s.owners| + 1 && Contents(s', |s.owners|) == Contents(s, i)[..size]
  {
    var t := s.owners[i].table;
    TablesInRange(s, i);
    assert forall b :: b in t[..n] ==> b in t;
    IncrefAllCounts(s.pool, Total(s.owners), t[..n]);
    FirstBlocksShow(s.pool, t, IncrefAll(s.pool, t[..n]), n, size);
    FirstColumns(s.pool, t, size, s.owners[i].length);
  }

  /** Complete blocks may be adopted. */
  lemma CompleteBlocksAreSealed(s: System, i: nat, n: nat)
    requires Inv(s) && i < |s.owners| && n <= |s.owners[i].table| && n * s.pool.blockSize <= s.owners[i].length
    ensures forall b :: b in s.owners[i].table[..n] ==> b < |s.pool.refs| && Sealed(s, b)
  {
    TablesInRange(s, i);
    MultipleIsFull(n, s.pool.blockSize);
    QuotientMonotone(n * s.pool.blockSize, s.owners[i].length, s.pool.blockSize);
    forall b | b in s.owners[i].table[..n] ensures b < |s.pool.refs| && Sealed(s, b) {
      var j :| 0 <= j < n && s.owners[i].table[j] == b;
      assert Full(s, i, j) && s.owners[i].table[j] in s.owners[i].table;
    }
  }

  lemma AdoptRefines(s: System, i: nat, n: nat, size: nat)
    requires Inv(s) && i < |s.owners| && n <= |s.owners[i].table| && size == n * s.pool.blockSize <= s.owners[i].length
    ensures var s' := PoolSharing.Adopt(s, s.owners[i].table[..n]);
      Inv(s') && SameShape(s, s') && Lists(s') == Lists(s) + [Lists(s)[i][..size]]
  {
    var ids := s.owners[i].table[..n];
    CompleteBlocksAreSealed(s, i, n);
    AdoptKeepsInv(s, ids);
    AdoptedEntries(s, i, n, size);
    AddedRefines(s, PoolSharing.Adopt(s, ids));
  }

  lemma ReleaseRefines(s: System, i: nat)
    requires Inv(s) && i < |s.owners|
    ensures Inv(Free(s, i)) && Lists(Free(s, i)) == Lists(s)[i := []]
  {
    FreeKeepsInv(s, i);
  }

  lemma InsertRefines(s: System, tokens: seq<int>, i: nat, max: nat)
    requires Inv(s) && i < |s.owners| && ValidIds(tokens) && ListKnown(Lists(s)[i], tokens, s.pool.depth)
    ensures var s' := PrefixIndex.Insert(s, tokens, i, max); Inv(s') && Lists(s') == Lists(s) && SameShape(s, s')
  {
    assert KnownTrue(s, i, tokens);
    InsertKeepsInv(s, tokens, i, max);
    var s' := PrefixIndex.Insert(s, tokens, i, max);
    forall u | 0 <= u < |s.owners| ensures Contents(s', u) == Contents(s, u) {
      SameStoreKeepsContents(s, s', u);
    }
  }

  lemma MatchRefines(s: System, tokens: seq<int>)
    requires Inv(s) && ValidIds(tokens)
    ensures var s' := PrefixIndex.Match(s, tokens).0;
      Inv(s') && ListStep(Lists(s), s.pool.depth, s.pool.blockSize, Op.Match(tokens), Lists(s')) && SameShape(s, s')
  {
    MatchKeepsInv(s, tokens);
    MatchIsSound(s, tokens);
    var (s', n) := PrefixIndex.Match(s, tokens);
    if n > 0 {
      AddedRefines(s, s');
      assert CachedPrefix(Contents(s', |s.owners|), tokens, s.pool.depth);
    }
  }

  /** One step of the pool is one step on private lists, and keeps the pool consistent. */
  lemma StepRefines(s: System, op: Op)
    requires Inv(s) && s.pool.depth > 0 && Legal(Lists(s), s.pool.depth, s.pool.blockSize, op) && Step(s, op).Some?
    ensures var s' := Step(s, op).value;
      Inv(s') && SameShape(s, s') && ListStep(Lists(s), s.pool.depth, s.pool.blockSize, op, Lists(s'))
  {
    hide Counted, OpenUnsealed, Bijective, IndexTrue, Sized;
    match op
    case New =>
      NewCacheKeepsInv(s);
      AddedRefines(s, NewCache(s));
    case Extend(i, cols) =>
      AppendAllRefinesList(s, i, cols);
      ExtendRefines(s, i, cols, AppendAll(s, i, cols).value);
    case Fork(i) =>
      ForkSharesContents(s, i);
      AddedRefines(s, PoolSharing.Fork(s, i));
    case Adopt(i, n) =>
      AdoptRefines(s, i, n, n * s.pool.blockSize);
    case Release(i) =>
      FreeKeepsInv(s, i);
      ReleaseRefines(s, i);
    case Match(tokens) =>
      MatchRefines(s, tokens);
    case Insert(tokens, i, max) =>
      InsertRefines(s, tokens, i, max);
  }

  /** Paged refines contiguous, over every run: whatever the interleaving, each cache reads
      exactly its own private list, and the pool invariant (reference conservation, sound
      index, no write to a shared or indexed block) holds at the end. */
  lemma {:induction false} RunRefines(s: System, ops: seq<Op>)
    requires Inv(s) && s.pool.depth > 0 && AllLegal(s, ops) && Run(s, ops).Some?
    ensures var s' := Run(s, ops).value; Inv(s') && ListRun(Lists(s), s.pool.depth, s.pool.blockSize, ops, Lists(s'))
    decreases |ops|
  {
    if ops != [] {
      StepRefines(s, ops[0]);
      var s1 := Step(s, ops[0]).value;
      RunRefines(s1, ops[1..]);
      assert ListStep(Lists(s), s.pool.depth, s.pool.blockSize, ops[0], Lists(s1));
    }
  }

  // ---------------------------------------------------------------- when runs succeed

  /** The operation names an existing cache, and blocks that it has. */
  predicate InRange(s: System, op: Op) {
    match op
    case New => true
    case Extend(i, cols) => i < |s.owners|
    case Fork(i) => i < |s.owners|
    case Adopt(i, n) => i < |s.owners| && n <= |s.owners[i].table|
    case Release(i) => i < |s.owners|
    case Match(tokens) => true
    case Insert(tokens, i, max) => i < |s.owners|
  }

  /** An operation on an existing cache raises exactly when it has to write positions for which
      the free list has too few blocks. */
  lemma StepSucceedsIff(s: System, op: Op)
    requires Inv(s) && s.pool.depth > 0 && Legal(Lists(s), s.pool.depth, s.pool.blockSize, op)
    ensures Step(s, op).Some? <==> InRange(s, op) && (op.Extend? ==> Needed(s, op.i, |op.cols|) <= |s.pool.free|)
  {
    hide OpenUnsealed, Bijective, IndexTrue, Counted, Needed, AppendAll;
    if op.Extend? && op.i < |s.owners| {
      AppendAllSucceedsIff(s, op.i, op.cols);
    }
  }

  lemma StepKeepsSnug(s: System, op: Op)
    requires Inv(s) && s.pool.depth > 0 && Legal(Lists(s), s.pool.depth, s.pool.blockSize, op) && Step(s, op).Some?
    requires AllSnug(s)
    ensures var s' := Step(s, op).value;
      s'.pool.blockSize == s.pool.blockSize && AllSnug(s') && |s'.pool.refs| == |s.pool.refs|
  {
    hide OpenUnsealed, Bijective, IndexTrue, Counted, Sized, AppendAll, AllSnug, Snug;
    match op
    case New => NewKeepsSnug(s);
    case Extend(i, cols) => AppendAllKeepsSnug(s, i, cols);
    case Fork(i) => ForkKeepsSnug(s, i);
    case Adopt(i, n) => AdoptKeepsSnug(s, i, n);
    case Release(i) => FreeKeepsSnug(s, i);
    case Match(tokens) => MatchKeepsSnug(s, tokens);
    case Insert(tokens, i, max) =>
      InsertRefines(s, tokens, i, max);
      InsertKeepsInv(s, tokens, i, max);
      InsertKeepsSnug(s, Step(s, op).value);
  }

  lemma NewKeepsSnug(s: System)
    requires Inv(s) && AllSnug(s)
    ensures AllSnug(NewCache(s))
  {
    BlocksOfMultiple(0, s.pool.blockSize);
    OneOwnerKeepsSnug(s, NewCache(s), Owner([], 0));
  }

  lemma ForkKeepsSnug(s: System, i: nat)
    requires Inv(s) && AllSnug(s) && i < |s.owners|
    ensures var s' := PoolSharing.Fork(s, i);
      s'.pool.blockSize == s.pool.blockSize && AllSnug(s') && |s'.pool.refs| == |s.pool.refs|
  {
    TablesInRange(s, i);
    IncrefAllCounts(s.pool, Total(s.owners), s.owners[i].table);
    assert Snug(s.pool, s.owners[i]);
    OneOwnerKeepsSnug(s, PoolSharing.Fork(s, i), s.owners[i]);
  }

  lemma AdoptKeepsSnug(s: System, i: nat, n: nat)
    requires Inv(s) && AllSnug(s) && i < |s.owners| && n <= |s.owners[i].table|
    ensures var s' := PoolSharing.Adopt(s, s.owners[i].table[..n]);
      s'.pool.blockSize == s.pool.blockSize && AllSnug(s') && |s'.pool.refs| == |s.pool.refs|
  {
    var ids := s.owners[i].table[..n];
    TablesInRange(s, i);
    assert forall b :: b in ids ==> b in s.owners[i].table;
    IncrefAllCounts(s.pool, Total(s.owners), ids);
    BlocksOfMultiple(n, s.pool.blockSize);
    OneOwnerKeepsSnug(s, PoolSharing.Adopt(s, ids), Owner(ids, n * s.pool.blockSize));
  }

  lemma FreeKeepsSnug(s: System, i: nat)
    requires Inv(s) && AllSnug(s) && i < |s.owners|
    ensures var s' := Free(s, i);
      s'.pool.blockSize == s.pool.blockSize && AllSnug(s') && |s'.pool.refs| == |s.pool.refs|
  {
    hide OpenUnsealed, Bijective, IndexTrue, Counted, Sized;
    FreeCounts(s, i);
    BlocksOfMultiple(0, s.pool.blockSize);
    OneOwnerKeepsSnug(s, Free(s, i), Owner([], 0));
  }

  lemma MatchKeepsSnug(s: System, tokens: seq<int>)
    requires Inv(s) && AllSnug(s)
    ensures var s' := PrefixIndex.Match(s, tokens).0;
      s'.pool.blockSize == s.pool.blockSize && AllSnug(s') && |s'.pool.refs| == |s.pool.refs|
  {
    MatchFromCounts(s.pool, Total(s.owners), Root, tokens);
    var ids := MatchFrom(s.pool, Root, tokens).1;
    BlocksOfMultiple(|ids|, s.pool.blockSize);
    OneOwnerKeepsSnug(s, PrefixIndex.Match(s, tokens).0, Owner(ids, |ids| * s.pool.blockSize));
  }

  lemma InsertKeepsSnug(s: System, s': System)
    requires s.pool.blockSize > 0 && AllSnug(s) && s'.owners == s.owners && s'.pool.blockSize == s.pool.blockSize
    ensures AllSnug(s')
  {
    forall u | 0 <= u < |s.owners| ensures Snug(s'.pool, s'.owners[u]) {
      assert Snug(s.pool, s.owners[u]);
    }
  }

  /** Each operation names an existing cache, and what is stored afterwards would fit the pool
      even if no block were shared. */
  ghost predicate AllRoomy(s: System, ops: seq<Op>)
    requires s.pool.blockSize > 0
    decreases |ops|
  {
    ops != [] ==>
      && InRange(s, ops[0])
      && (ops[0].Extend? ==> Footprint(Lists(s)[ops[0].i := Lists(s)[ops[0].i] + ops[0].cols], s.pool.blockSize) <= |s.pool.refs|)
      && var r := Step(s, ops[0]);
         r.Some? && r.value.pool.blockSize > 0 ==> AllRoomy(r.value, ops[1..])
  }

  lemma RoomyStepSucceeds(s: System, op: Op)
    requires Inv(s) && s.pool.depth > 0 && AllSnug(s) && Legal(Lists(s), s.pool.depth, s.pool.blockSize, op) && InRange(s, op)
    requires op.Extend? ==> Footprint(Lists(s)[op.i := Lists(s)[op.i] + op.cols], s.pool.blockSize) <= |s.pool.refs|
    ensures Step(s, op).Some?
  {
    hide OpenUnsealed, Bijective, IndexTrue, Counted, Sized, AllSnug, Footprint, AppendAll;
    StepSucceedsIff(s, op);
    if op.Extend? && op.cols != [] && Needed(s, op.i, |op.cols|) > |s.pool.free| {
      ShortageIsFullPool(s, op.i, |op.cols|, Lists(s)[op.i := Lists(s)[op.i] + op.cols]);
    }
  }

  /** A run that never stores more than the pool holds never raises. */
  lemma {:induction false} RoomyRunSucceeds(s: System, ops: seq<Op>)
    requires Inv(s) && s.pool.depth > 0 && AllSnug(s) && AllLegal(s, ops) && AllRoomy(s, ops)
    ensures Run(s, ops).Some?
    decreases |ops|
  {
    hide OpenUnsealed, Bijective, IndexTrue, Counted, Sized, AllSnug, Step;
    if ops != [] {
      RoomyStepSucceeds(s, ops[0]);
      StepRefines(s, ops[0]);
      StepKeepsSnug(s, ops[0]);
      RoomyRunSucceeds(Step(s, ops[0]).value, ops[1..]);
    }
  }

  /** A new pool: every block free, in order, nothing indexed. */
  function Fresh(numBlocks: nat, blockSize: nat, depth: nat): System {
    System(Pool(blockSize, depth, Zeros(numBlocks), UpTo(numBlocks), map[], map[], [], map[]), [])
  }

  function Zeros(n: nat): (r: seq<int>)
    ensures |r| == n && forall i :: 0 <= i < n ==> r[i] == 0
  {
    if n == 0 then [] else Zeros(n - 1) + [0]
  }

  function UpTo(n: nat): (r: seq<nat>)
    ensures |r| == n && forall i :: 0 <= i < n ==> r[i] == i
  {
    if n == 0 then [] else UpTo(n - 1) + [n - 1]
  }

  lemma FreshIsConsistent(numBlocks: nat, blockSize: nat, depth: nat)
    requires blockSize > 0
    ensures Inv(Fresh(numBlocks, blockSize, depth)) && Lists(Fresh(numBlocks, blockSize, depth)) == []
    ensures AllSnug(Fresh(numBlocks, blockSize, depth))
  {
    var p := Fresh(numBlocks, blockSize, depth).pool;
    forall b: nat ensures b in p.free <==> b < |p.refs| && Ref(p, b) == 0 {
      if b < numBlocks {
        assert p.free[b] == b;
      }
    }
  }

  /** After any run from a new pool in which every owner was released, every block is free. */
  lemma NoLeak(numBlocks: nat, blockSize: nat, depth: nat, ops: seq<Op>)
    requires blockSize > 0 && depth > 0
    requires var s := Fresh(numBlocks, blockSize, depth);
      AllLegal(s, ops) && Run(s, ops).Some? &&
      forall i :: 0 <= i < |Run(s, ops).value.owners| ==> Run(s, ops).value.owners[i].table == []
    ensures var p := Run(Fresh(numBlocks, blockSize, depth), ops).value.pool;
      forall b: nat :: b < |p.refs| ==> b in p.free && Ref(p, b) == 0
  {
    var s := Fresh(numBlocks, blockSize, depth);
    FreshIsConsistent(numBlocks, blockSize, depth);
    RunRefines(s, ops);
    AllFreed(Run(s, ops).value);
  }
}
