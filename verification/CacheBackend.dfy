/** What the engine stores K/V in: contiguous private caches with a copying prefix cache, or
    paged caches over one pool with shared prefix blocks.  Both offer the engine the same
    private lists. */
module CacheBackends {
  import opened Wrappers
  import opened Transformer
  import opened BlockPool
  import opened PoolSystem
  import opened PagedCaches
  import opened PoolSharing
  import opened PrefixIndex
  import opened PoolCapacity
  import opened PrefixCaches
  import opened PrefixReuse
  import opened PrefixNames
  import opened PagedRuns
  import MC = ModelCalls

  /** What `match` found for a request: references to blocks, or a copy of the K/V. */
  datatype Prefix = NoPrefix | Blocks(owner: nat) | Layers(kv: seq<seq<KV>>)

  class Backend {
    const depth: nat
    const paged: bool
    const usePrefix: bool
    const maxIndexed: nat
    const numBlocks: nat
    const blockSize: Pos
    const copies: PrefixCache?
    var system: System
    var lists: PrivateLists
    /** The caches and matches not yet released. */
    ghost var live: set<nat>
    /** The tokens that the shared blocks of each live list stand for. */
    ghost var names: Names

    ghost function Lists(): (r: PrivateLists)
      reads this
    {
      if paged then PagedRuns.Lists(system) else lists
    }

    ghost predicate Valid()
      reads this, copies
    {
      && depth > 0
      && (forall i :: i in live ==> i < |Lists()|) && names.Keys == live
      && (if paged then
            && Inv(system) && system.pool.depth == depth
            && system.pool.blockSize == blockSize && |system.pool.refs| == numBlocks && AllSnug(system)
            && OnlyLive(system, live) && maxIndexed == numBlocks && Named(system, names)
          else
            && (forall i :: 0 <= i < |lists| ==> Whole(lists[i], depth) && (i !in live ==> lists[i] == []))
            && (copies != null ==> copies.Valid() && copies.depth == depth))
    }

    constructor Paged(numBlocks: nat, blockSize: nat, depth: nat, usePrefix: bool)
      requires blockSize > 0 && depth > 0
      ensures Valid() && Lists() == [] && live == {} && paged && this.depth == depth && copies == null
      ensures this.numBlocks == numBlocks && this.blockSize == blockSize
    {
      this.numBlocks, this.blockSize := numBlocks, blockSize;
      this.depth, paged, this.usePrefix, maxIndexed, copies := depth, true, usePrefix, numBlocks, null;
      system, lists, live, names := Fresh(numBlocks, blockSize, depth), [], {}, map[];
      FreshIsConsistent(numBlocks, blockSize, depth);
    }

    constructor Contiguous(depth: nat, copies: PrefixCache?)
      requires depth > 0 && (copies != null ==> copies.Valid() && copies.depth == depth)
      ensures Valid() && Lists() == [] && live == {} && !paged && this.depth == depth && this.copies == copies
    {
      numBlocks, blockSize := 0, 1;
      this.depth, paged, this.usePrefix, maxIndexed, this.copies := depth, false, copies != null, 0, copies;
      system, lists, live, names := Fresh(0, 1, depth), [], {}, map[];
    }

    lemma LiveHasNames()
      requires Valid()
      ensures names.Keys == live && forall i :: i in live ==> i < |Lists()| && NameOf(names, i) == names[i]
    {
      hide Inv, Named, AllSnug, PagedRuns.Lists;
    }

    predicate Caching() {
      if paged then usePrefix else copies != null
    }

    /** Tokens per block of the prefix cache. */
    function Unit(): Pos {
      if !paged && copies != null && copies.blockSize > 0 then copies.blockSize else blockSize
    }

    /** The keys under which something is stored, and how many may be. */
    ghost function Index(): set<Key>
      reads this`system, copies
    {
      if paged then system.pool.byKey.Keys else if copies != null then copies.blocks.Keys else {}
    }

    function Bound(): nat {
      if paged then numBlocks else if copies != null then copies.maxBlocks else 0
    }

    /** `_cache_factory()`. */
    method NewCache() returns (i: nat)
      requires Valid()
      modifies this`system, this`lists, this`live, this`names
      ensures Valid() && i == |old(Lists())| && Lists() == old(Lists()) + [[]] && live == old(live) + {i}
      ensures names == old(names)[i := []]
    {
      hide Inv, Named, AllSnug, PagedRuns.Lists;
      i := if paged then |system.owners| else |lists|;
      if paged {
        NewCacheKeepsInv(system);
        NewKeepsSnug(system);
        AddedRefines(system, PoolSharing.NewCache(system));
        NewKeepsNamed(system, names);
        system := PoolSharing.NewCache(system);
      } else {
        lists := lists + [[]];
      }
      live, names := live + {i}, names[i := []];
    }

    /** The blocks the columns need are free. */
    ghost predicate HasRoom(i: nat, n: nat)
      requires Valid() && i in live
      reads this, copies
    {
      paged ==> Needed(system, i, n) <= |system.pool.free|
    }

    /** `init_from_prefill` and `append_from_output`; false stands for OutOfBlocks, which happens
        exactly when the pool lacks the blocks: then all caches, with this one as it was to be,
        take more blocks than there are.  A contiguous cache always grows. */
    method Extend(i: nat, cols: seq<seq<KV>>) returns (ok: bool)
      requires Valid() && i in live && Whole(cols, depth)
      modifies this`system, this`lists
      ensures ok <==> old(HasRoom(i, |cols|))
      ensures Valid() && live == old(live)
      ensures Lists() == if ok then old(Lists())[i := old(Lists())[i] + cols] else old(Lists())
      ensures !ok ==> paged && Footprint(old(Lists())[i := old(Lists())[i] + cols], blockSize) > numBlocks
    {
      hide Inv, AllSnug, Needed, PagedRuns.Lists, Named;
      if paged {
        ok := ExtendPaged(i, cols);
      } else {
        lists, ok := lists[i := lists[i] + cols], true;
      }
    }

    method ExtendPaged(i: nat, cols: seq<seq<KV>>) returns (ok: bool)
      requires Valid() && paged && i in live && Whole(cols, depth)
      modifies this`system
      ensures ok <==> old(HasRoom(i, |cols|))
      ensures Valid() && Lists() == if ok then old(Lists())[i := old(Lists())[i] + cols] else old(Lists())
      ensures !ok ==> Footprint(old(Lists())[i := old(Lists())[i] + cols], blockSize) > numBlocks
    {
      hide Inv, AllSnug, AppendAll, Needed, Footprint, PagedRuns.Lists, Named;
      PagedExtend(system, live, i, cols);
      var r := AppendAll(system, i, cols);
      ok := r.Some?;
      if ok {
        AppendAllKeepsNamed(system, names, i, cols);
        system := r.value;
      }
    }

    /** `free`, or the release of a match that was never adopted. */
    method Release(i: nat)
      requires Valid() && i in live
      modifies this`system, this`lists, this`live, this`names
      ensures Valid() && Lists() == old(Lists())[i := []] && live == old(live) - {i} && names == old(names) - {i}
      ensures Index() == old(Index())
    {
      hide Inv, AllSnug, PagedRuns.Lists, Named;
      if paged {
        FreeKeepsInv(system, i);
        FreeKeepsSnug(system, i);
        ReleaseRefines(system, i);
        FreeKeepsNamed(system, names, i);
        FreeKeepsIndex(system, i);
        system := Free(system, i);
      } else {
        lists := lists[i := []];
      }
      live, names := live - {i}, names - {i};
    }

    method View(i: nat) returns (view: seq<seq<KV>>)
      requires Valid() && i in live
      ensures Whole(Lists()[i], depth) && view == MC.View(Lists()[i], depth)
    {
      if paged {
        view := MC.View(Contents(system, i), depth);
      } else {
        view := MC.View(lists[i], depth);
      }
    }

    /** `_match_prefix`: nothing, or a correct cache of a proper prefix of the prompt.  It is the
        longest that is stored: it ends at a missing key or where a token must be left. */
    method MatchPrefix(tokens: seq<int>) returns (n: nat, p: Prefix)
      requires Valid() && ValidIds(tokens)
      modifies this`system, this`live, this`names, copies
      ensures Valid() && MatchOutcome(paged, depth, tokens, n, p, old(Lists()), old(live), Lists(), live)
      ensures names == if p.Blocks? then old(names)[p.owner := tokens] else old(names)
      ensures Index() == old(Index()) && n % Unit() == 0
      ensures if Caching() then LongestStored(Index(), Keys(Root, Usable(tokens), Unit()), n / Unit()) else n == 0
    {
      hide PagedRuns.Lists, Inv, AllSnug, Named, MatchOutcome, Keys, LongestStored;
      NothingMatched(paged, depth, tokens, Lists(), live);
      n, p := 0, NoPrefix;
      if paged {
        if usePrefix {
          n, p := MatchBlocks(tokens);
        }
      } else if copies != null {
        n, p := MatchCopies(tokens);
      }
    }

    method MatchBlocks(tokens: seq<int>) returns (n: nat, p: Prefix)
      requires Valid() && paged && ValidIds(tokens)
      modifies this`system, this`live, this`names
      ensures Valid() && MatchOutcome(paged, depth, tokens, n, p, old(Lists()), old(live), Lists(), live)
      ensures names == if p.Blocks? then old(names)[p.owner := tokens] else old(names)
      ensures Index() == old(Index()) && n % blockSize == 0 && LongestStored(Index(), Keys(Root, Usable(tokens), blockSize), n / blockSize)
    {
      hide Counted, OpenUnsealed, Bijective, IndexTrue, MatchOutcome, PrefixIndex.Match, PagedRuns.Lists, Named, Keys, LongestStored;
      MatchKeepsNamed(system, names, tokens);
      PagedLongest(system, tokens);
      MatchBlocksOutcome(system, live, tokens);
      MatchKeepsSnug(system, tokens);
      var r := PrefixIndex.Match(system, tokens);
      n, p := r.1, NoPrefix;
      if n > 0 {
        p := Blocks(|system.owners|);
        live, names := live + {p.owner}, names[p.owner := tokens];
        system := r.0;
      }
    }

    method MatchCopies(tokens: seq<int>) returns (n: nat, p: Prefix)
      requires Valid() && !paged && copies != null && ValidIds(tokens)
      modifies copies
      ensures Valid() && !p.Blocks?
      ensures MatchOutcome(paged, depth, tokens, n, p, old(Lists()), old(live), Lists(), live)
      ensures Index() == old(Index()) && n % Unit() == 0 && LongestStored(Index(), Keys(Root, Usable(tokens), Unit()), n / Unit())
    {
      hide Keys, LongestStored, MatchOutcome, Usable, Trim, Whole, Holds, PagedRuns.Lists, Inv, Named, AllSnug, OnlyLive;
      var matched, layers, found := copies.Match(tokens);
      RunOfFound(Index(), Keys(Root, tokens, copies.blockSize), found);
      CutRun(Index(), tokens, copies.blockSize, |found|);
      CutMatched(tokens, copies.blockSize, |found|);
      NothingMatched(paged, depth, tokens, Lists(), live);
      n, p := 0, NoPrefix;
      if matched == 0 {
        return;
      }
      var maxPrefix := (|tokens| - 1) / copies.blockSize * copies.blockSize;
      if matched > maxPrefix {
        if maxPrefix <= 0 {
          return;
        }
        layers := Trim(layers, maxPrefix);
        matched := maxPrefix;
      }
      n, p := matched, Layers(layers);
      CopyMatched(depth, tokens, n, layers, Lists(), live);
    }

    /** `insert`, if there is a prefix cache: the cache must be correct for the tokens, which go on
        from what its shared blocks stand for.  Afterwards all its complete blocks are stored, the
        last ones if there are more than the bound. */
    method Insert(tokens: seq<int>, i: nat)
      requires Valid() && i in live && ValidIds(tokens) && ListKnown(Lists()[i], tokens, depth) && names[i] <= tokens
      modifies this`system, this`names, copies
      ensures Valid() && Lists() == old(Lists()) && names.Keys == old(names).Keys
      ensures forall u :: u in live && u != i ==> names[u] == old(names)[u]
      ensures Caching() ==> StoresBlocks(Index(), tokens, |Lists()[i]|, Unit(), Bound())
    {
      hide PagedRuns.Lists, Inv, AllSnug, Named, Keys, ListKnown;
      if paged {
        if usePrefix {
          InsertBlocks(tokens, i);
        }
      } else if copies != null {
        InsertCopies(tokens, i);
      }
    }

    method InsertBlocks(tokens: seq<int>, i: nat)
      requires Valid() && paged && i in live && ValidIds(tokens) && ListKnown(Lists()[i], tokens, depth) && names[i] <= tokens
      modifies this`system, this`names
      ensures Valid() && Lists() == old(Lists()) && names == old(names)[i := tokens]
      ensures StoresBlocks(Index(), tokens, |Lists()[i]|, Unit(), Bound())
    {
      hide Inv, AllSnug, Named, Keys, ListKnown, PrefixIndex.Insert, PagedRuns.Lists, KnownTrue;
      ListLength(system, i);
      KnownFromList(system, tokens, i);
      InsertStoresAll(system, names, tokens, i, maxIndexed, Min(|Lists()[i]|, |tokens|));
      InsertKeepsNamed(system, names, tokens, i, maxIndexed);
      InsertRefines(system, tokens, i, maxIndexed);
      InsertKeepsInv(system, tokens, i, maxIndexed);
      InsertKeepsSnug(system, PrefixIndex.Insert(system, tokens, i, maxIndexed));
      names := names[i := tokens];
      system := PrefixIndex.Insert(system, tokens, i, maxIndexed);
    }

    method InsertCopies(tokens: seq<int>, i: nat)
      requires Valid() && !paged && copies != null && i in live && ValidIds(tokens) && ListKnown(Lists()[i], tokens, depth)
      modifies copies
      ensures Valid() && Lists() == old(Lists())
      ensures StoresBlocks(Index(), tokens, |Lists()[i]|, Unit(), Bound())
    {
      hide Keys, ListKnown, Holds;
      var view := View(i);
      InsertableView(lists[i], tokens, depth);
      var ks := copies.Insert(tokens, view, |lists[i]|);
      NewestAreStored(copies.order, Last(ks, copies.maxBlocks));
    }

    /** What is not live holds nothing. */
    lemma ReleasedAreEmpty()
      requires Valid()
      ensures forall i :: 0 <= i < |Lists()| && i !in live ==> Lists()[i] == []
    {
      hide OpenUnsealed, Bijective, IndexTrue, Counted, AllSnug;
      if paged {
        forall i | 0 <= i < |system.owners| && i !in live ensures system.owners[i].length == 0 {
          assert Sized(system.pool, system.owners[i]) && system.owners[i].table == [];
          NothingStored(system.owners[i].length, blockSize);
        }
      }
    }

    /** When nothing is live, no block is in use: nothing leaked. */
    lemma IdlePoolIsFree()
      requires Valid() && paged && live == {}
      ensures forall b: nat :: b < |system.pool.refs| ==> b in system.pool.free && Ref(system.pool, b) == 0
    {
      AllFreed(system);
    }
  }

  /** No match, or a reference to blocks (a new live list), or a copy; both correct caches. */
  ghost predicate MatchOutcome(paged: bool, depth: nat, tokens: seq<int>, n: nat, p: Prefix,
                               lists: PrivateLists, live: set<nat>, lists': PrivateLists, live': set<nat>)
  {
    match p
    case NoPrefix => n == 0 && lists' == lists && live' == live
    case Layers(kv) => !paged && 0 < n < |tokens| && lists' == lists && live' == live && PrefixIsCache(kv, tokens, n, depth)
    case Blocks(i) =>
      && paged && 0 < n < |tokens| && i == |lists| && live' == live + {i} && |lists'| == i + 1
      && lists' == lists + [lists'[i]] && |lists'[i]| == n && ContentsTrue(lists'[i], tokens, depth)
  }

  /** The complete blocks of the first `n` tokens are stored, the last ones if there are more than
      `bound`. */
  ghost predicate StoresBlocks(stored: set<Key>, tokens: seq<int>, n: nat, unit: Pos, bound: nat) {
    forall k :: k in Last(Keys(Root, tokens[..Min(n, |tokens|)], unit), bound) ==> k in stored
  }

  lemma NothingMatched(paged: bool, depth: nat, tokens: seq<int>, lists: PrivateLists, live: set<nat>)
    ensures MatchOutcome(paged, depth, tokens, 0, NoPrefix, lists, live, lists, live)
  {
  }

  lemma CopyMatched(depth: nat, tokens: seq<int>, n: nat, layers: seq<seq<KV>>, lists: PrivateLists, live: set<nat>)
    requires 0 < n < |tokens| && |layers| == depth && forall l :: 0 <= l < depth ==> layers[l] == FullCache(tokens, l)[..n]
    ensures MatchOutcome(false, depth, tokens, n, Layers(layers), lists, live, lists, live)
  {
  }

  lemma RunOfFound(stored: set<Key>, all: seq<Key>, found: seq<Key>)
    requires found <= all && (forall k :: k in found ==> k in stored) && (found != all ==> all[|found|] !in stored)
    ensures LongestStored(stored, all, |found|)
  {
  }

  /** Where the copying cache's match is cut. */
  lemma CutMatched(tokens: seq<int>, bs: nat, found: nat)
    requires bs > 0 && found * bs <= |tokens|
    ensures var m := Min(found, |Usable(tokens)| / bs);
      && (tokens == [] ==> found == 0) && m * bs % bs == 0 && m * bs / bs == m
      && (tokens != [] ==>
            var cut := (|tokens| - 1) / bs * bs;
            && cut < |tokens| && (if found * bs > cut then m * bs == cut else m == found))
  {
    var q := |Usable(tokens)| / bs;
    MultipleIsFull(Min(found, q), bs);
    if found > 0 {
      TimesMonotone(1, found, bs);
    }
    if found <= q {
      TimesMonotone(found, q, bs);
    } else {
      TimesMonotone(q + 1, found, bs);
      SuccTimes(q, bs);
    }
    if tokens != [] {
      assert (|tokens| - 1) / bs * bs + (|tokens| - 1) % bs == |tokens| - 1;
    }
  }

  lemma NewestAreStored(order: seq<Key>, newest: seq<Key>)
    requires EndsWith(order, newest)
    ensures forall k :: k in newest ==> k in order
  {
    forall k | k in newest ensures k in order {
      var j :| 0 <= j < |newest| && newest[j] == k;
      assert order[|order| - |newest|..][j] == k;
      assert order[|order| - |newest| + j] in order;
    }
  }

  lemma KnownFromList(s: System, tokens: seq<int>, i: nat)
    requires i < |s.owners| && ListKnown(PagedRuns.Lists(s)[i], tokens, s.pool.depth)
    ensures KnownTrue(s, i, tokens)
  {
  }

  lemma ListLength(s: System, i: nat)
    requires i < |s.owners|
    ensures |PagedRuns.Lists(s)[i]| == s.owners[i].length
  {
  }

  lemma FreeKeepsIndex(s: System, i: nat)
    requires Inv(s) && i < |s.owners|
    ensures Free(s, i).pool.byKey == s.pool.byKey
  {
    hide OpenUnsealed, Bijective, IndexTrue, Counted;
    FreeCounts(s, i);
  }

  /** A match changes no key and ends only where it must. */
  lemma PagedLongest(s: System, tokens: seq<int>)
    requires s.pool.blockSize > 0 && Inv(s)
    ensures var (s', n) := PrefixIndex.Match(s, tokens);
      && s'.pool.byKey == s.pool.byKey && n % s.pool.blockSize == 0
      && LongestStored(s.pool.byKey.Keys, Keys(Root, Usable(tokens), s.pool.blockSize), n / s.pool.blockSize)
  {
    hide OpenUnsealed, MatchFrom, Keys, Usable, CountedAs, Bijective, IndexTrue;
    MatchFromIsLongest(s.pool, Root, tokens);
    MatchFromCounts(s.pool, Total(s.owners), Root, tokens);
    MultipleIsFull(|MatchFrom(s.pool, Root, tokens).1|, s.pool.blockSize);
  }

  /** One cache grows or, exactly when the blocks are missing, nothing changes. */
  lemma PagedExtend(s: System, live: set<nat>, i: nat, cols: seq<seq<KV>>)
    requires Inv(s) && AllSnug(s) && OnlyLive(s, live) && i in live && i < |s.owners| && s.pool.depth > 0 && Whole(cols, s.pool.depth)
    ensures match AppendAll(s, i, cols)
      case None =>
        && Needed(s, i, |cols|) > |s.pool.free|
        && Footprint(PagedRuns.Lists(s)[i := PagedRuns.Lists(s)[i] + cols], s.pool.blockSize) > |s.pool.refs|
      case Some(s') =>
        && Needed(s, i, |cols|) <= |s.pool.free| && Inv(s') && AllSnug(s') && OnlyLive(s', live) && |s'.owners| == |s.owners|
        && s'.pool.depth == s.pool.depth && s'.pool.blockSize == s.pool.blockSize && |s'.pool.refs| == |s.pool.refs|
        && PagedRuns.Lists(s') == PagedRuns.Lists(s)[i := PagedRuns.Lists(s)[i] + cols]
  {
    hide OpenUnsealed, Bijective, IndexTrue, Counted, Sized, AllSnug, AppendAll, Needed, Footprint;
    AppendAllIsListAppend(s, i, cols);
    var r := AppendAll(s, i, cols);
    if r.Some? {
      ExtendRefines(s, i, cols, r.value);
      ExtendKeepsReleased(s, i, cols, r.value);
      AppendAllKeepsSnug(s, i, cols);
    } else {
      NeededNone(s, i);
      ShortageIsFullPool(s, i, |cols|, PagedRuns.Lists(s)[i := PagedRuns.Lists(s)[i] + cols]);
    }
  }

  lemma NothingStored(n: nat, size: nat)
    requires size > 0 && n / size == 0 && n % size == 0
    ensures n == 0
  {
  }

  /** Only live owners have blocks. */
  ghost predicate OnlyLive(s: System, live: set<nat>) {
    forall i: nat :: i < |s.owners| && i !in live ==> s.owners[i].table == []
  }

  lemma MatchBlocksOutcome(s: System, live: set<nat>, tokens: seq<int>)
    requires Inv(s) && OnlyLive(s, live) && ValidIds(tokens) && forall i :: i in live ==> i < |s.owners|
    ensures var (s', n) := PrefixIndex.Match(s, tokens);
      var p := if n > 0 then Blocks(|s.owners|) else NoPrefix;
      var live' := if n > 0 then live + {|s.owners|} else live;
      && Inv(s') && OnlyLive(s', live') && s'.pool.depth == s.pool.depth && (forall i :: i in live' ==> i < |s'.owners|)
      && (n == 0 ==> s' == s)
      && MatchOutcome(true, s.pool.depth, tokens, n, p, PagedRuns.Lists(s), live, PagedRuns.Lists(s'), live')
  {
    hide Counted, OpenUnsealed, Bijective, IndexTrue, PrefixIndex.Match, Contents, ContentsTrue, PagedRuns.Lists;
    MatchKeepsInv(s, tokens);
    MatchIsSound(s, tokens);
    MatchKeepsReleased(s, tokens);
    var (s', n) := PrefixIndex.Match(s, tokens);
    if n > 0 {
      AddedRefines(s, s');
    }
  }

  /** Every column has an entry per layer. */
  ghost predicate Whole(cols: seq<seq<KV>>, depth: nat) {
    forall k :: 0 <= k < |cols| ==> |cols[k]| == depth
  }

  /** `kv` is the correct cache of the first `n` tokens. */
  ghost predicate PrefixIsCache(kv: seq<seq<KV>>, tokens: seq<int>, n: nat, depth: nat) {
    n <= |tokens| && |kv| == depth && forall l :: 0 <= l < depth ==> kv[l] == FullCache(tokens, l)[..n]
  }

  /** Every layer cut to `n` positions. */
  function Trim(layers: seq<seq<KV>>, n: nat): (r: seq<seq<KV>>)
    requires forall l :: 0 <= l < |layers| ==> n <= |layers[l]|
    ensures |r| == |layers| && forall l :: 0 <= l < |r| ==> r[l] == layers[l][..n]
  {
    if layers == [] then [] else Trim(layers[..|layers| - 1], n) + [layers[|layers| - 1][..n]]
  }

  lemma InsertableView(list: seq<seq<KV>>, tokens: seq<int>, depth: nat)
    requires Whole(list, depth) && ListKnown(list, tokens, depth) && depth > 0
    ensures var view := MC.View(list, depth);
      |view| == depth && forall l :: 0 <= l < |view| ==> Correct(tokens, view, |list|, l)
  {
    var view := MC.View(list, depth);
    forall l | 0 <= l < depth ensures Correct(tokens, view, |list|, l) {
      var n := Min(|list|, |tokens|);
      forall k | 0 <= k < n ensures view[l][k] == FullCache(tokens, l)[k] {
        assert list[k] == TruthColumn(tokens, k, depth);
        FullCacheIsTruth(tokens, l, k);
      }
      assert view[l][..n] == FullCache(tokens, l)[..n];
    }
  }

  /** Appending to one cache leaves the tables of all others alone. */
  lemma {:induction false} ExtendKeepsReleased(s: System, i: nat, cols: seq<seq<KV>>, s': System)
    requires s.pool.blockSize > 0 && i < |s.owners| && AppendAll(s, i, cols) == Some(s')
    ensures |s'.owners| == |s.owners| && s'.pool.depth == s.pool.depth
    ensures forall u :: 0 <= u < |s.owners| && u != i ==> s'.owners[u] == s.owners[u]
    decreases |cols|
  {
    if cols != [] {
      WriteLayersShape(s.pool, s.owners[i].table, s.owners[i].length, cols[0], 0);
      var s1 := Append(s, i, cols[0]).value;
      ExtendKeepsReleased(s1, i, cols[1..], s');
    }
  }

  lemma {:induction false} WriteLayersShape(p: Pool, table: seq<nat>, pos: nat, es: seq<KV>, l: nat)
    requires p.blockSize > 0 && l <= |es|
    ensures var r := WriteLayers(p, table, pos, es, l); r.Some? ==> r.value.0.depth == p.depth
    decreases |es| - l
  {
    if l < |es| {
      var r := WriteAt(p, table, pos, l, es[l]);
      if r.Some? && r.value.0.blockSize > 0 {
        WriteLayersShape(r.value.0, r.value.1, pos, es, l + 1);
      }
    }
  }

  lemma MatchKeepsReleased(s: System, tokens: seq<int>)
    requires s.pool.blockSize > 0
    ensures var (s', n) := PrefixIndex.Match(s, tokens);
      if n > 0 then |s'.owners| == |s.owners| + 1 && s'.owners[..|s.owners|] == s.owners else s' == s
  {
    var ids := MatchFrom(s.pool, Root, tokens).1;
    if ids != [] {
      TimesMonotone(1, |ids|, s.pool.blockSize);
    }
  }
}
