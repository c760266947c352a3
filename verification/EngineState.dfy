/** The state of the scheduler as values: sequences, who holds which cache, and what has been
    answered, with the facts the engine's methods keep. */
module EngineStates {
  import opened Wrappers
  import opened Transformer
  import opened PrefixIndex
  import opened PoolCapacity
  import opened PagedRuns
  import opened PrefixNames
  import opened Generations
  import opened CacheBackends
  import MC = ModelCalls

  /** A request inside the engine.  `id` numbers arrivals. */
  datatype Sequence = Sequence(
    id: nat, gen: Generation, prefixLen: nat, prefix: Prefix, cache: Option<nat>, pending: Option<TokenId>)

  /** `prompt_ids.shape[0] + max(max_tokens, 0)`. */
  function RequestCost(r: Request): nat {
    |r.prompt| + Max(r.params.maxTokens, 0)
  }

  function Costs(rs: seq<Request>): (costs: seq<nat>)
    ensures |costs| == |rs| && forall i :: 0 <= i < |rs| ==> costs[i] == RequestCost(rs[i])
  {
    seq(|rs|, i requires 0 <= i < |rs| => RequestCost(rs[i]))
  }

  /** The private lists of the backend, which sequence each live one belongs to, the answer of
      every request that has one, what each request may come to store, the requests that were
      dropped between the queue and the batch, and the tokens that shared blocks stand for. */
  datatype Books = Books(
    lists: PrivateLists, owner: map<nat, nat>, outcome: map<nat, Generation>, costs: seq<nat>, lost: set<nat>, names: Names)

  /** How much list `i` stores. */
  function Filled(b: Books, i: nat): nat {
    if i < |b.lists| then |b.lists[i]| else 0
  }

  /** The list a sequence holds: its cache, or the blocks of its match. */
  function Holding(s: Sequence): Option<nat> {
    if s.cache.Some? then s.cache else if s.prefix.Blocks? then Some(s.prefix.owner) else None
  }

  /** The sequence owns what it holds and nothing else. */
  ghost predicate Mine(b: Books, s: Sequence) {
    && (Holding(s).Some? ==> Holding(s).value in b.owner && b.owner[Holding(s).value] == s.id)
    && (forall i :: i in b.owner && b.owner[i] == s.id ==> Holding(s) == Some(i) && NameOf(b.names, i) <= s.gen.request.prompt)
    && s.id < |b.costs| && b.costs[s.id] == RequestCost(s.gen.request) && s.id !in b.lost
  }

  /** A correct cache of the first `n` tokens. */
  ghost predicate CacheOk(depth: nat, lists: PrivateLists, i: nat, ids: seq<int>, n: nat) {
    i < |lists| && |lists[i]| == n <= |ids| && ContentsTrue(lists[i], ids, depth)
  }

  ghost predicate PrefixOk(depth: nat, lists: PrivateLists, s: Sequence) {
    var prompt := s.gen.request.prompt;
    match s.prefix
    case NoPrefix => s.prefixLen == 0
    case Layers(kv) => 0 < s.prefixLen < |prompt| && PrefixIsCache(kv, prompt, s.prefixLen, depth)
    case Blocks(i) => 0 < s.prefixLen < |prompt| && CacheOk(depth, lists, i, prompt, s.prefixLen)
  }

  /** Not started. */
  ghost predicate WaitingOk(w: World, b: Books, s: Sequence) {
    && Mine(b, s) && s.id !in b.outcome
    && s.gen == Start(s.gen.request) && s.gen.request.prompt != []
    && s.cache == None && s.pending == None && PrefixOk(w.depth, b.lists, s)
  }

  /** Running: in the state of the naive loop after as many steps as tokens, with a correct
      cache of everything but the pending token. */
  ghost predicate ActiveOk(w: World, b: Books, s: Sequence) {
    && Mine(b, s) && s.id !in b.outcome
    && Running(w, s.gen) && s.gen.generated > 0
    && s.gen.tokenIds != [] && s.pending == Some(s.gen.tokenIds[|s.gen.tokenIds| - 1])
    && !s.prefix.Blocks? && s.cache.Some? && CacheOk(w.depth, b.lists, s.cache.value, s.gen.tokenIds, |s.gen.tokenIds| - 1)
  }

  /** Unfinished, and where the naive loop is after `generated` steps. */
  ghost predicate Running(w: World, g: Generation) {
    !g.finished && g.request.prompt != [] && g == Naive(w, g.request, g.generated)
  }

  /** Answered, and holding nothing. */
  ghost predicate DoneOk(w: World, b: Books, s: Sequence) {
    Mine(b, s) && Holding(s) == None && s.gen.finished && s.id in b.outcome && b.outcome[s.id] == s.gen
  }

  /** The answer of the naive loop, or that loop cut short by a cancellation. */
  ghost predicate OutcomeOk(w: World, g: Generation) {
    g.finished && g.request.prompt != [] && (g == Reference(w, g.request) || CutShort(w, g))
  }

  ghost predicate CutShort(w: World, g: Generation) {
    exists n: nat :: Running(w, Naive(w, g.request, n)) && g == Finish(w, Naive(w, g.request, n), Cancelled, true)
  }

  /** Nothing is held for a request that was answered, and every answer is right. */
  ghost predicate Tidy(w: World, b: Books) {
    && (forall i :: i in b.owner ==> b.owner[i] !in b.outcome)
    && (forall id :: id in b.outcome ==> OutcomeOk(w, b.outcome[id]))
  }

  /** For sequence `id` nothing changes. */
  ghost predicate Agree(b: Books, b': Books, id: nat) {
    && (forall i :: i in b.owner && b.owner[i] == id ==>
          && i in b'.owner && b'.owner[i] == id && i < |b.lists| && i < |b'.lists| && b'.lists[i] == b.lists[i]
          && NameOf(b'.names, i) == NameOf(b.names, i))
    && (forall i :: i in b'.owner && b'.owner[i] == id ==> i in b.owner && b.owner[i] == id)
    && (id in b.outcome <==> id in b'.outcome) && (id in b.outcome ==> b'.outcome[id] == b.outcome[id])
    && (id < |b.costs| ==> id < |b'.costs| && b'.costs[id] == b.costs[id]) && (id in b.lost <==> id in b'.lost)
  }

  /** For no sequence outside `ids` anything changes. */
  ghost predicate Outside(b: Books, b': Books, ids: set<nat>) {
    forall id :: id !in ids ==> Agree(b, b', id)
  }

  lemma TidyWithFewerOwners(w: World, b: Books, b': Books)
    requires Tidy(w, b) && b'.outcome == b.outcome && forall i :: i in b'.owner ==> i in b.owner && b'.owner[i] == b.owner[i]
    ensures Tidy(w, b')
  {
  }

  /** Answering a request that holds nothing any more. */
  lemma TidyWithAnswer(w: World, b: Books, b': Books, id: nat, g: Generation)
    requires Tidy(w, b) && OutcomeOk(w, g) && b' == b.(outcome := b.outcome[id := g])
    requires forall i :: i in b.owner ==> b.owner[i] != id
    ensures Tidy(w, b')
  {
  }

  lemma OutsideSame(b: Books, ids: set<nat>)
    requires forall i :: i in b.owner ==> i < |b.lists|
    ensures Outside(b, b, ids)
  {
  }

  lemma OutsideWithAnswer(b: Books, b': Books, id: nat)
    requires b'.lists == b.lists && b'.owner == b.owner && b'.costs == b.costs && b'.lost == b.lost && b'.names == b.names && Funded(b)
    requires forall k :: k != id ==> (k in b.outcome <==> k in b'.outcome) && (k in b.outcome ==> b'.outcome[k] == b.outcome[k])
    ensures Outside(b, b', {id})
  {
  }

  lemma FundedWithAnswer(b: Books, b': Books)
    requires Funded(b) && b'.lists == b.lists && b'.owner == b.owner && b'.costs == b.costs
    ensures Funded(b')
  {
  }

  lemma TidyWithNewOwner(w: World, b: Books, b': Books, i: nat, id: nat)
    requires Tidy(w, b) && id !in b.outcome && b'.outcome == b.outcome && b'.owner == b.owner[i := id]
    ensures Tidy(w, b')
  {
  }

  lemma AgreeTransitive(a: Books, b: Books, c: Books, id: nat)
    requires Agree(a, b, id) && Agree(b, c, id)
    ensures Agree(a, c, id)
  {
    forall i | i in a.owner && a.owner[i] == id
      ensures i in c.owner && c.owner[i] == id && i < |a.lists| && i < |c.lists| && c.lists[i] == a.lists[i]
      ensures NameOf(c.names, i) == NameOf(a.names, i)
    {
      assert i in b.owner && b.owner[i] == id;
    }
  }

  lemma OutsideTransitive(a: Books, b: Books, c: Books, ids: set<nat>)
    requires Outside(a, b, ids) && Outside(b, c, ids)
    ensures Outside(a, c, ids)
  {
    forall id | id !in ids ensures Agree(a, c, id) {
      assert Agree(a, b, id) && Agree(b, c, id);
      AgreeTransitive(a, b, c, id);
    }
  }

  lemma OutsideMore(a: Books, b: Books, ids: set<nat>, more: set<nat>)
    requires Outside(a, b, ids) && ids <= more
    ensures Outside(a, b, more)
  {
  }

  lemma AgreeKeepsWaiting(w: World, b: Books, b': Books, s: Sequence)
    requires WaitingOk(w, b, s) && Agree(b, b', s.id)
    ensures WaitingOk(w, b', s)
  {
  }

  lemma AgreeKeepsActive(w: World, b: Books, b': Books, s: Sequence)
    requires ActiveOk(w, b, s) && Agree(b, b', s.id)
    ensures ActiveOk(w, b', s)
  {
  }

  lemma AgreeKeepsDone(w: World, b: Books, b': Books, s: Sequence)
    requires DoneOk(w, b, s) && Agree(b, b', s.id)
    ensures DoneOk(w, b', s)
  {
  }

  /** A sequence that gave back all it held and was answered. */
  lemma NowDone(w: World, b: Books, b': Books, s: Sequence, s': Sequence)
    requires Mine(b, s) && b'.costs == b.costs && b'.lost == b.lost
    requires forall i :: i in b'.owner ==> b'.owner[i] != s.id
    requires s'.id == s.id && Holding(s') == None && s'.gen.request == s.gen.request && s'.gen.finished
    requires s.id in b'.outcome && b'.outcome[s.id] == s'.gen
    ensures DoneOk(w, b', s')
  {
  }

  lemma StillMine(b: Books, s: Sequence, s': Sequence)
    requires Mine(b, s) && s'.id == s.id && s'.cache == s.cache && s'.prefix == s.prefix && s'.gen.request == s.gen.request
    ensures Mine(b, s')
  {
  }

  lemma CacheLength(depth: nat, lists: PrivateLists, i: nat, ids: seq<int>, n: nat)
    requires CacheOk(depth, lists, i, ids, n)
    ensures i < |lists| && |lists[i]| == n <= |ids|
  {
  }

  // ------------------------------------------------------------------ what is stored

  /** Each live list belongs to one sequence, and that sequence's cost pays for it. */
  ghost predicate Funded(b: Books) {
    && (forall i :: i in b.owner ==> i < |b.lists| && b.owner[i] < |b.costs| && |b.lists[i]| <= b.costs[b.owner[i]])
    && forall i, j :: i in b.owner && j in b.owner && b.owner[i] == b.owner[j] ==> i == j
  }

  lemma FundedWithFewerOwners(b: Books, b': Books)
    requires Funded(b) && b'.costs == b.costs && |b'.lists| == |b.lists|
    requires forall i :: i in b'.owner ==> i in b.owner && b'.owner[i] == b.owner[i] && |b'.lists[i]| <= |b.lists[i]|
    ensures Funded(b')
  {
  }

  lemma FundedWithNewOwner(b: Books, b': Books, i: nat, id: nat)
    requires Funded(b) && b'.costs == b.costs && b.lists <= b'.lists && b'.owner == b.owner[i := id]
    requires i < |b'.lists| && id < |b.costs| && |b'.lists[i]| <= b.costs[id] && forall k :: k in b.owner ==> b.owner[k] != id
    ensures Funded(b')
  {
  }

  /** Registering a cache changes what its own blocks stand for, and nothing else. */
  lemma InsertedIsOutside(b: Books, b': Books, i: nat, id: nat)
    requires Funded(b) && i in b.owner && b.owner[i] == id && b'.owner == b.owner && b'.lists == b.lists
    requires b'.outcome == b.outcome && b'.costs == b.costs && b'.lost == b.lost
    requires forall u :: u in b.owner && u != i ==> NameOf(b'.names, u) == NameOf(b.names, u)
    ensures Outside(b, b', {id})
  {
  }

  lemma OutsideWithoutOwner(b: Books, b': Books, i: nat, id: nat)
    requires Funded(b) && i in b.owner && b.owner[i] == id && b'.owner == b.owner - {i} && b'.lists == b.lists[i := []]
    requires b'.outcome == b.outcome && b'.costs == b.costs && b'.lost == b.lost
    requires forall u :: u in b.owner && u != i ==> NameOf(b'.names, u) == NameOf(b.names, u)
    ensures Outside(b, b', {id})
  {
  }

  lemma OutsideWithNewOwner(b: Books, b': Books, i: nat, id: nat)
    requires Funded(b) && b.lists <= b'.lists && i == |b.lists| && b'.owner == b.owner[i := id]
    requires b'.outcome == b.outcome && b'.costs == b.costs && b'.lost == b.lost
    requires forall u :: u in b.owner && u != i ==> NameOf(b'.names, u) == NameOf(b.names, u)
    ensures Outside(b, b', {id})
  {
  }

  lemma FundedWithMoreStored(b: Books, b': Books, i: nat)
    requires Funded(b) && i in b.owner && b'.costs == b.costs && b'.owner == b.owner && |b'.lists| == |b.lists|
    requires |b'.lists[i]| <= b.costs[b.owner[i]] && forall k :: 0 <= k < |b.lists| && k != i ==> b'.lists[k] == b.lists[k]
    ensures Funded(b')
  {
  }

  lemma OutsideWithMoreStored(b: Books, b': Books, i: nat)
    requires Funded(b) && i in b.owner && b' == b.(lists := b'.lists) && |b'.lists| == |b.lists|
    requires forall k :: 0 <= k < |b.lists| && k != i ==> b'.lists[k] == b.lists[k]
    ensures Outside(b, b', {b.owner[i]})
  {
  }

  lemma FundedWithMoreCosts(b: Books, b': Books)
    requires Funded(b) && b' == b.(costs := b'.costs) && b.costs <= b'.costs
    ensures Funded(b')
  {
  }

  /** What writing the rest of a sequence's tokens does to the books. */
  lemma StoredMore(w: World, b: Books, b': Books, s: Sequence, n: nat, cols: seq<seq<KV>>)
    requires Funded(b) && Mine(b, s) && s.cache.Some? && Running(w, s.gen) && n <= |s.gen.tokenIds|
    requires CacheOk(w.depth, b.lists, s.cache.value, s.gen.tokenIds, n)
    requires cols == MC.TruthColumns(s.gen.tokenIds, n, |s.gen.tokenIds|, w.depth)
    requires b' == b.(lists := b.lists[s.cache.value := b.lists[s.cache.value] + cols])
    ensures s.cache.value in b.owner && b.owner[s.cache.value] == s.id && s.cache.value < |b.lists| && Whole(cols, w.depth)
    ensures Funded(b') && Outside(b, b', {s.id}) && Mine(b', s)
    ensures CacheOk(w.depth, b'.lists, s.cache.value, s.gen.tokenIds, |s.gen.tokenIds|)
  {
    hide ContentsTrue, Running, Funded, Outside, MC.TruthColumns;
    RunningFits(w, s.gen);
    CacheGrows(w.depth, b.lists, s.cache.value, s.gen.tokenIds, n, |s.gen.tokenIds|, cols, b'.lists);
    FundedWithMoreStored(b, b', s.cache.value);
    OutsideWithMoreStored(b, b', s.cache.value);
  }

  /** Blocks that the costs of some requests take. */
  function CostBlocks(costs: seq<nat>, ids: set<nat>, size: Pos): nat {
    if costs == [] then 0 else
      var n := |costs| - 1;
      CostBlocks(costs[..n], ids, size) + if n in ids then BlocksFor(costs[n], size) else 0
  }

  lemma {:induction false} CostBlocksMore(costs: seq<nat>, ids: set<nat>, more: set<nat>, size: Pos)
    requires ids <= more
    ensures CostBlocks(costs, ids, size) <= CostBlocks(costs, more, size)
  {
    if costs != [] {
      CostBlocksMore(costs[..|costs| - 1], ids, more, size);
    }
  }

  lemma {:induction false} CostBlocksAdd(costs: seq<nat>, ids: set<nat>, id: nat, size: Pos)
    requires id !in ids
    ensures CostBlocks(costs, ids + {id}, size) == CostBlocks(costs, ids, size) + if id < |costs| then BlocksFor(costs[id], size) else 0
  {
    if costs != [] {
      CostBlocksAdd(costs[..|costs| - 1], ids, id, size);
    }
  }

  lemma {:induction false} CostBlocksUnion(costs: seq<nat>, ids: set<nat>, more: set<nat>, size: Pos)
    ensures CostBlocks(costs, ids + more, size) <= CostBlocks(costs, ids, size) + CostBlocks(costs, more, size)
  {
    if costs != [] {
      CostBlocksUnion(costs[..|costs| - 1], ids, more, size);
    }
  }

  lemma CostBlocksSnoc(costs: seq<nat>, cost: nat, ids: set<nat>, size: Pos)
    ensures CostBlocks(costs + [cost], ids, size) == CostBlocks(costs, ids, size) + if |costs| in ids then BlocksFor(cost, size) else 0
  {
    assert (costs + [cost])[..|costs|] == costs;
  }

  function OwnersBelow(b: Books, k: nat): set<nat> {
    set i | i in b.owner && i < k :: b.owner[i]
  }

  function Owners(b: Books): set<nat> {
    set i | i in b.owner :: b.owner[i]
  }

  /** What is stored is paid for by the costs of those who own it. */
  lemma {:induction false} OwnersPay(b: Books, k: nat, size: Pos)
    requires Funded(b) && k <= |b.lists| && forall i :: 0 <= i < |b.lists| && i !in b.owner ==> b.lists[i] == []
    ensures Footprint(b.lists[..k], size) <= CostBlocks(b.costs, OwnersBelow(b, k), size)
  {
    hide CostBlocks;
    if k > 0 {
      OwnersPay(b, k - 1, size);
      assert b.lists[..k][..k - 1] == b.lists[..k - 1];
      if k - 1 in b.owner {
        var id := b.owner[k - 1];
        assert OwnersBelow(b, k) == OwnersBelow(b, k - 1) + {id};
        CostBlocksAdd(b.costs, OwnersBelow(b, k - 1), id, size);
        BlocksMonotone(|b.lists[k - 1]|, b.costs[id], size);
      } else {
        assert OwnersBelow(b, k) == OwnersBelow(b, k - 1);
        BlocksOfMultiple(0, size);
      }
    }
  }

  /** The requests that own something and those in `ids` may together store more than fits. */
  ghost predicate Crowded(b: Books, ids: set<nat>, size: Pos, blocks: nat) {
    CostBlocks(b.costs, Owners(b) + ids, size) > blocks
  }

  lemma FullIsCrowded(b: Books, ids: set<nat>, size: Pos, blocks: nat)
    requires Funded(b) && Footprint(b.lists, size) > blocks
    requires forall i :: 0 <= i < |b.lists| && i !in b.owner ==> b.lists[i] == []
    ensures Crowded(b, ids, size, blocks)
  {
    hide CostBlocks, Footprint;
    OwnersPay(b, |b.lists|, size);
    assert b.lists[..|b.lists|] == b.lists;
    CostBlocksMore(b.costs, OwnersBelow(b, |b.lists|), Owners(b) + ids, size);
  }

  lemma SameOwnersCrowded(b: Books, b': Books, ids: set<nat>, size: Pos, blocks: nat)
    requires b'.owner == b.owner && b'.costs == b.costs && Crowded(b, ids, size, blocks)
    ensures Crowded(b', ids, size, blocks)
  {
    assert Owners(b') == Owners(b);
  }

  lemma CrowdedBefore(b: Books, b': Books, ids: set<nat>, more: set<nat>, size: Pos, blocks: nat)
    requires Outside(b, b', more) && ids <= more && b'.costs == b.costs && Crowded(b', ids, size, blocks)
    ensures Crowded(b, more, size, blocks)
  {
    hide CostBlocks;
    forall id | id in Owners(b') + ids ensures id in Owners(b) + more {
      if id !in more {
        assert Agree(b, b', id);
      }
    }
    CostBlocksMore(b.costs, Owners(b') + ids, Owners(b) + more, size);
  }

  // ------------------------------------------------------------- facts about tokens

  lemma TokenIdsAreValid(ids: seq<TokenId>)
    ensures ValidIds(ids)
  {
  }

  lemma {:induction false} TruthColumnOfPrefix(ids: seq<int>, more: seq<int>, k: nat, n: nat)
    requires k < |ids|
    ensures TruthColumn(ids + more, k, n) == TruthColumn(ids, k, n)
  {
    assert (ids + more)[..k + 1] == ids[..k + 1];
    forall l | 0 <= l < n ensures TruthColumn(ids + more, k, n)[l] == TruthColumn(ids, k, n)[l] {
    }
  }

  /** A correct cache stays one when tokens are added, and may be registered. */
  lemma CacheStaysOk(depth: nat, lists: PrivateLists, i: nat, ids: seq<int>, n: nat, more: seq<int>)
    requires CacheOk(depth, lists, i, ids, n)
    ensures CacheOk(depth, lists, i, ids + more, n) && ListKnown(lists[i], ids + more, depth)
  {
    forall k | 0 <= k < |lists[i]| ensures lists[i][k] == TruthColumn(ids + more, k, depth) {
      TruthColumnOfPrefix(ids, more, k, depth);
    }
  }

  /** A correct cache extended by the correct columns that follow. */
  lemma CacheGrows(depth: nat, lists: PrivateLists, i: nat, ids: seq<int>, n: nat, m: nat, cols: seq<seq<KV>>, lists': PrivateLists)
    requires CacheOk(depth, lists, i, ids, n) && n <= m <= |ids| && cols == MC.TruthColumns(ids, n, m, depth)
    requires lists' == lists[i := lists[i] + cols]
    ensures CacheOk(depth, lists', i, ids, m)
  {
    forall k | 0 <= k < m ensures lists'[i][k] == TruthColumn(ids, k, depth) {
      if k >= n {
        assert cols[k - n] == TruthColumn(ids, n + (k - n), depth);
      }
    }
  }

  /** One more step of the naive loop. */
  lemma StepIsNaive(w: World, g: Generation, tid: TokenId)
    requires Running(w, g) && g.request.params.maxTokens > 0
    requires g.tokenIds != [] && tid == Sample(w, FullLogits(w.depth, g.tokenIds), g.request.params)
    ensures var g' := EmitOrFinish(w, g, tid);
      && g'.request == g.request
      && (if g'.finished then OutcomeOk(w, g') && g' == Reference(w, g.request)
          else Running(w, g') && g'.generated == g.generated + 1)
  {
    hide EmitOrFinish, Finish, FullLogits, Sample;
    var n := g.generated;
    assert Naive(w, g.request, n + 1) == Next(w, g) == EmitOrFinish(w, g, tid);
    NaiveIsGood(w, g.request, n + 1);
    if EmitOrFinish(w, g, tid).finished {
      FinishedIsReference(w, g.request, n + 1);
    }
  }

  /** What a running sequence may store never exceeds its cost. */
  lemma RunningFits(w: World, g: Generation)
    requires Running(w, g)
    ensures |g.tokenIds| <= RequestCost(g.request)
  {
    NaiveIsGood(w, g.request, g.generated);
  }

  lemma RunningHasBudget(w: World, g: Generation)
    requires Running(w, g) && g.generated > 0
    ensures g.request.params.maxTokens > g.generated && |g.tokenIds| == |g.request.prompt| + g.generated
  {
    NaiveIsGood(w, g.request, g.generated);
  }

  lemma CancelIsCut(w: World, g: Generation)
    requires Running(w, g)
    ensures OutcomeOk(w, Finish(w, g, Cancelled, true)) && Finish(w, g, Cancelled, true).request == g.request
  {
    NaiveIsGood(w, g.request, g.generated);
    FinishKeeps(w, g, Cancelled, true);
    assert g == Naive(w, g.request, g.generated);
  }

  /** Every answer, cancelled or not, has exactly one final event, the last one, with the
      right usage and at most `max_tokens` generated. */
  lemma AnswerHasOneFinal(w: World, g: Generation)
    requires OutcomeOk(w, g)
    ensures OneFinal(g) && g.generated <= Max(0, g.request.params.maxTokens) && SentIsText(g)
  {
    hide Finish, Reference, Sent;
    if g == Reference(w, g.request) {
      ReferenceIsFinished(w, g.request);
    } else {
      var n: nat :| Running(w, Naive(w, g.request, n)) && g == Finish(w, Naive(w, g.request, n), Cancelled, true);
      NaiveIsGood(w, g.request, n);
      FinishKeeps(w, Naive(w, g.request, n), Cancelled, true);
    }
  }

  /** Every answer, one cut short included, hides the first tool-call marker and what follows,
      unless a stop sequence that starts behind the marker's start ended it. */
  lemma AnswerHoldsBack(w: World, g: Generation)
    requires OutcomeOk(w, g)
    ensures Sent(g.events) <= g.text[..Visible(g.text)] <==> !CutPastMarker(g.request.stopSequences, g.text)
    ensures Hit(g.request.stopSequences, g.text).None? ==> Sent(g.events) == g.text[..Visible(g.text)]
  {
    hide Finish, Reference, Sent, Hit, Naive, Good, HeldBack;
    if g == Reference(w, g.request) {
      FinishedStreamStopsAtMarker(w, g.request);
    } else {
      var n: nat :| Running(w, Naive(w, g.request, n)) && g == Finish(w, Naive(w, g.request, n), Cancelled, true);
      NaiveIsGood(w, g.request, n);
      NaiveHoldsBack(w, g.request, n);
      CutHoldsBack(w, Naive(w, g.request, n));
    }
  }

  /** Every answer is sampled token by token and ends as it must; only one cut short says that it
      was cancelled. */
  lemma AnswerConcludes(w: World, g: Generation)
    requires OutcomeOk(w, g)
    ensures Concluded(w, g) && (Told(g) != Cancelled ==> g == Reference(w, g.request))
  {
    hide Finish, Reference, Concluded, Told, Naive, Good, NoCalls, Sampled;
    if g == Reference(w, g.request) {
      ReferenceConcludes(w, g.request);
    } else {
      var n: nat :| Running(w, Naive(w, g.request, n)) && g == Finish(w, Naive(w, g.request, n), Cancelled, true);
      NaiveIsGood(w, g.request, n);
      NaiveIsSampled(w, g.request, n);
      RunningSendsNoCalls(w, g.request, n);
      EmittedFits(w, Naive(w, g.request, n));
      CancelConcludes(w, Naive(w, g.request, n));
    }
  }

  lemma AnswerHasPrompt(w: World, g: Generation)
    requires OutcomeOk(w, g)
    ensures g.request.prompt != [] && g.request.prompt <= g.tokenIds
  {
    hide Finish, Reference, Naive, Sent, Decoded;
    if g == Reference(w, g.request) {
      ReferenceIsFinished(w, g.request);
    } else {
      var n: nat :| Running(w, Naive(w, g.request, n)) && g == Finish(w, Naive(w, g.request, n), Cancelled, true);
      NaiveIsGood(w, g.request, n);
      FinishFinishes(w, Naive(w, g.request, n), Cancelled, true);
    }
  }

  lemma EmittedFits(w: World, g: Generation)
    requires Good(w, g)
    ensures g.emitted <= |g.text|
  {
  }

  lemma NothingToGenerate(w: World, r: Request)
    requires r.prompt != [] && r.params.maxTokens <= 0
    ensures OutcomeOk(w, Finish(w, Start(r), MaxTokens, true)) && Finish(w, Start(r), MaxTokens, true) == Reference(w, r)
  {
    ReferenceIsFinished(w, r);
    assert Naive(w, r, 1) == Next(w, Naive(w, r, 0));
  }

  lemma StartRuns(w: World, r: Request)
    requires r.prompt != []
    ensures Running(w, Start(r))
  {
  }

  /** A sequence that may be cancelled: waiting or running. */
  ghost predicate Stoppable(w: World, b: Books, s: Sequence) {
    && Mine(b, s) && s.id !in b.outcome && Running(w, s.gen)
    && (s.cache.Some? ==> exists n :: CacheOk(w.depth, b.lists, s.cache.value, s.gen.tokenIds, n))
  }

  lemma WaitingIsStoppable(w: World, b: Books, s: Sequence)
    requires WaitingOk(w, b, s)
    ensures Stoppable(w, b, s)
  {
    StartRuns(w, s.gen.request);
  }

  lemma ActiveIsStoppable(w: World, b: Books, s: Sequence)
    requires ActiveOk(w, b, s)
    ensures Stoppable(w, b, s)
  {
  }

  lemma AgreeKeepsStoppable(w: World, b: Books, b': Books, s: Sequence)
    requires Stoppable(w, b, s) && Agree(b, b', s.id)
    ensures Stoppable(w, b', s)
  {
    hide Running;
    if s.cache.Some? {
      var n :| CacheOk(w.depth, b.lists, s.cache.value, s.gen.tokenIds, n);
      assert CacheOk(w.depth, b'.lists, s.cache.value, s.gen.tokenIds, n);
    }
  }

  /** A new sequence with what was matched for it. */
  lemma MatchedIsWaiting(w: World, b: Books, b': Books, s: Sequence, live: set<nat>, live': set<nat>)
    requires s.gen == Start(s.gen.request) && s.gen.request.prompt != [] && s.cache == None && s.pending == None
    requires b.owner.Keys == live && (forall i :: i in b.owner ==> b.owner[i] != s.id && i < |b.lists|)
    requires s.id !in b.outcome && b'.outcome == b.outcome && b'.costs == b.costs && b'.lost == b.lost && s.id !in b.lost
    requires s.id < |b.costs| && b.costs[s.id] == RequestCost(s.gen.request)
    requires MatchOutcome(s.prefix.Blocks?, w.depth, s.gen.request.prompt, s.prefixLen, s.prefix, b.lists, live, b'.lists, live')
    requires b'.owner == if s.prefix.Blocks? then b.owner[s.prefix.owner := s.id] else b.owner
    requires b'.names == if s.prefix.Blocks? then b.names[s.prefix.owner := s.gen.request.prompt] else b.names
    ensures WaitingOk(w, b', s) && Outside(b, b', {s.id}) && b'.owner.Keys == live'
  {
    hide ContentsTrue, PrefixIsCache;
  }

  // -------------------------------------------------------------- lists of sequences

  ghost predicate DistinctIds(seqs: seq<Sequence>) {
    forall j, k :: 0 <= j < k < |seqs| ==> seqs[j].id != seqs[k].id
  }

  function Ids(seqs: seq<Sequence>): (ids: set<nat>)
    ensures forall j :: 0 <= j < |seqs| ==> seqs[j].id in ids
    ensures forall id :: id in ids ==> exists j :: 0 <= j < |seqs| && seqs[j].id == id
  {
    if seqs == [] then {} else Ids(seqs[..|seqs| - 1]) + {seqs[|seqs| - 1].id}
  }

  /** Answered, or running with a cache. */
  ghost predicate Settled(w: World, b: Books, s: Sequence) {
    if s.gen.finished then DoneOk(w, b, s) else ActiveOk(w, b, s)
  }

  lemma AgreeKeepsSettled(w: World, b: Books, b': Books, s: Sequence)
    requires Settled(w, b, s) && Agree(b, b', s.id)
    ensures Settled(w, b', s)
  {
    hide ActiveOk, DoneOk, Agree;
    if s.gen.finished {
      AgreeKeepsDone(w, b, b', s);
    } else {
      AgreeKeepsActive(w, b, b', s);
    }
  }

  /** `s'` is `s` one token on, or has the answer of the naive loop. */
  ghost predicate Advanced(w: World, b: Books, s: Sequence, s': Sequence) {
    && s'.id == s.id && s'.gen.request == s.gen.request && Settled(w, b, s')
    && (if s'.gen.finished then s'.gen == Reference(w, s.gen.request) else s'.gen.generated == s.gen.generated + 1)
  }

  lemma FilledIsAdvanced(w: World, b: Books, s: Sequence, s': Sequence, tid: TokenId)
    requires Running(w, s.gen) && s.gen.request.params.maxTokens > 0 && s.gen.tokenIds != []
    requires tid == Sample(w, FullLogits(w.depth, s.gen.tokenIds), s.gen.request.params)
    requires s'.id == s.id && s'.gen == EmitOrFinish(w, s.gen, tid) && Settled(w, b, s')
    ensures Advanced(w, b, s, s')
  {
    hide EmitOrFinish, Running, OutcomeOk;
    StepIsNaive(w, s.gen, tid);
  }

  // ---------------------------------------------------------------- a list in prefill

  /** How prefill treats a sequence: nothing to generate, without and with a prefix. */
  function Kind(s: Sequence): nat {
    if s.gen.request.params.maxTokens <= 0 then 0 else if s.prefixLen <= 0 then 1 else 2
  }

  /** The positions of the first `n` sequences that are of a kind, in order. */
  function Select(seqs: seq<Sequence>, kind: nat, n: nat): (sel: seq<nat>)
    requires n <= |seqs|
    ensures forall k :: 0 <= k < |sel| ==> sel[k] < n && Kind(seqs[sel[k]]) == kind
    ensures forall j: nat :: j < n && Kind(seqs[j]) == kind ==> j in sel
    ensures forall j, k :: 0 <= j < k < |sel| ==> sel[j] < sel[k]
  {
    if n == 0 then [] else Select(seqs, kind, n - 1) + (if Kind(seqs[n - 1]) == kind then [n - 1] else [])
  }

  /** Position `j` has been handled when kinds below `kind` and the positions `sel` are done. */
  ghost predicate Handled(start: seq<Sequence>, kind: nat, sel: seq<nat>, j: nat)
    requires j < |start|
  {
    Kind(start[j]) < kind || j in sel
  }

  /** Every handled sequence has advanced; the others wait as they did. */
  ghost predicate Prefilling(w: World, b: Books, start: seq<Sequence>, seqs: seq<Sequence>, kind: nat, sel: seq<nat>) {
    && |seqs| == |start| && DistinctIds(start)
    && forall j: nat :: j < |start| ==>
         if Handled(start, kind, sel, j) then Advanced(w, b, start[j], seqs[j])
         else seqs[j] == start[j] && WaitingOk(w, b, seqs[j])
  }

  lemma PrefillingNext(w: World, b: Books, b': Books, start: seq<Sequence>, seqs: seq<Sequence>, kind: nat, sel: seq<nat>, j: nat, s': Sequence)
    requires Prefilling(w, b, start, seqs, kind, sel) && j < |start| && Outside(b, b', {start[j].id})
    requires Advanced(w, b', start[j], s')
    ensures Prefilling(w, b', start, seqs[j := s'], kind, sel + [j])
  {
    hide WaitingOk, Settled, Agree, Kind;
    var seqs' := seqs[j := s'];
    forall k: nat | k < |start|
      ensures if Handled(start, kind, sel + [j], k) then Advanced(w, b', start[k], seqs'[k])
              else seqs'[k] == start[k] && WaitingOk(w, b', seqs'[k])
    {
      if k != j {
        assert start[k].id != start[j].id && Agree(b, b', start[k].id);
        if Handled(start, kind, sel, k) {
          AgreeKeepsSettled(w, b, b', seqs[k]);
        } else {
          AgreeKeepsWaiting(w, b, b', seqs[k]);
        }
      }
    }
  }

  /** When all of a kind are done, the next kind can start. */
  lemma NextKind(w: World, b: Books, start: seq<Sequence>, seqs: seq<Sequence>, kind: nat)
    requires Prefilling(w, b, start, seqs, kind, Select(start, kind, |start|))
    ensures Prefilling(w, b, start, seqs, kind + 1, [])
  {
    forall j: nat | j < |start| ensures Handled(start, kind + 1, [], j) == Handled(start, kind, Select(start, kind, |start|), j) {
    }
  }

  /** The next selected position is still waiting. */
  lemma NextSelected(w: World, b: Books, start: seq<Sequence>, seqs: seq<Sequence>, kind: nat, sel: seq<nat>, i: nat)
    requires i < |sel| && sel == Select(start, kind, |start|) && Prefilling(w, b, start, seqs, kind, sel[..i])
    ensures sel[..i + 1] == sel[..i] + [sel[i]] && sel[i] < |start| == |seqs| && seqs[sel[i]] == start[sel[i]]
    ensures WaitingOk(w, b, seqs[sel[i]]) && Kind(seqs[sel[i]]) == kind
    ensures start[sel[i]].id in Ids(start)
  {
    hide WaitingOk, Advanced;
    assert sel[i] !in sel[..i];
    assert !Handled(start, kind, sel[..i], sel[i]);
  }

  lemma OutsideStep(a: Books, b: Books, c: Books, id: nat, ids: set<nat>)
    requires Outside(a, b, ids) && Outside(b, c, {id}) && id in ids
    ensures Outside(a, c, ids)
  {
    OutsideMore(b, c, {id}, ids);
    OutsideTransitive(a, b, c, ids);
  }

  /** The prompts of the selected sequences. */
  function Prompts(seqs: seq<Sequence>, sel: seq<nat>): (r: seq<seq<int>>)
    requires forall k :: 0 <= k < |sel| ==> sel[k] < |seqs|
    ensures |r| == |sel| && forall k :: 0 <= k < |sel| ==> r[k] == seqs[sel[k]].gen.request.prompt
  {
    if sel == [] then [] else Prompts(seqs, sel[..|sel| - 1]) + [seqs[sel[|sel| - 1]].gen.request.prompt]
  }

  lemma SelectedPrompts(w: World, b: Books, start: seq<Sequence>, seqs: seq<Sequence>, kind: nat, sel: seq<nat>)
    requires sel == Select(start, kind, |start|) && Prefilling(w, b, start, seqs, kind, [])
    ensures |Prompts(start, sel)| == |sel| && forall k :: 0 <= k < |sel| ==> Prompts(start, sel)[k] != []
  {
    forall k | 0 <= k < |sel| ensures start[sel[k]].gen.request.prompt != [] {
      assert !Handled(start, kind, [], sel[k]);
    }
  }

  lemma AllHandled(w: World, b: Books, start: seq<Sequence>, seqs: seq<Sequence>)
    requires Prefilling(w, b, start, seqs, 3, [])
    ensures |seqs| == |start| && forall j :: 0 <= j < |start| ==> Advanced(w, b, start[j], seqs[j])
  {
    forall j | 0 <= j < |start| ensures Advanced(w, b, start[j], seqs[j]) {
      assert Handled(start, 3, [], j);
    }
  }

  /** Row `i` of a prefill batch belongs to the `i`-th selected sequence. */
  ghost predicate RowOfBatch(depth: nat, start: seq<Sequence>, sel: seq<nat>, i: nat, width: nat,
                             logits: seq<seq<Logits>>, kv: seq<seq<seq<KV>>>)
  {
    && i < |sel| && sel[i] < |start| && |start[sel[i]].gen.request.prompt| <= width
    && MC.RowIsFullPass(depth, start[sel[i]].gen.request.prompt, width - |start[sel[i]].gen.request.prompt|, i, logits, kv)
  }

  lemma BatchRows(depth: nat, start: seq<Sequence>, sel: seq<nat>, prompts: seq<seq<int>>, width: nat,
                  logits: seq<seq<Logits>>, kv: seq<seq<seq<KV>>>)
    requires (forall k :: 0 <= k < |sel| ==> sel[k] < |start|) && prompts == Prompts(start, sel)
    requires forall i :: 0 <= i < |prompts| ==> |prompts[i]| <= width
    requires forall i :: 0 <= i < |prompts| ==> MC.RowIsFullPass(depth, prompts[i], width - |prompts[i]|, i, logits, kv)
    ensures forall i :: 0 <= i < |sel| ==> RowOfBatch(depth, start, sel, i, width, logits, kv)
  {
    hide MC.RowIsFullPass;
    forall i | 0 <= i < |sel| ensures RowOfBatch(depth, start, sel, i, width, logits, kv) {
      assert prompts[i] == start[sel[i]].gen.request.prompt;
    }
  }

  // ----------------------------------------------------------- a list in a decode step

  /** The positions of the sequences that take part in a decode step. */
  function Decodable(seqs: seq<Sequence>, n: nat): (sel: seq<nat>)
    requires n <= |seqs|
    ensures forall k :: 0 <= k < |sel| ==> sel[k] < n && !seqs[sel[k]].gen.finished && seqs[sel[k]].pending.Some?
    ensures forall j: nat :: j < n && !seqs[j].gen.finished && seqs[j].pending.Some? ==> j in sel
    ensures forall j, k :: 0 <= j < k < |sel| ==> sel[j] < sel[k]
  {
    if n == 0 then []
    else Decodable(seqs, n - 1) + (if !seqs[n - 1].gen.finished && seqs[n - 1].pending.Some? then [n - 1] else [])
  }

  /** The sequences at `done` are one token on; the others are as they were. */
  ghost predicate Decoding(w: World, b: Books, start: seq<Sequence>, seqs: seq<Sequence>, done: seq<nat>) {
    && |seqs| == |start| && DistinctIds(start)
    && forall j: nat :: j < |start| ==>
         if j in done then Advanced(w, b, start[j], seqs[j]) else seqs[j] == start[j] && Settled(w, b, seqs[j])
  }

  lemma DecodingNext(w: World, b: Books, b': Books, start: seq<Sequence>, seqs: seq<Sequence>, done: seq<nat>, j: nat, s': Sequence)
    requires Decoding(w, b, start, seqs, done) && j < |start| && Outside(b, b', {start[j].id})
    requires Advanced(w, b', start[j], s')
    ensures Decoding(w, b', start, seqs[j := s'], done + [j])
  {
    hide Settled, Agree;
    var seqs' := seqs[j := s'];
    forall k: nat | k < |start|
      ensures if k in done + [j] then Advanced(w, b', start[k], seqs'[k]) else seqs'[k] == start[k] && Settled(w, b', seqs'[k])
    {
      if k != j {
        assert start[k].id != start[j].id && Agree(b, b', start[k].id);
        AgreeKeepsSettled(w, b, b', seqs[k]);
      }
    }
  }

  lemma NextDecodable(w: World, b: Books, start: seq<Sequence>, seqs: seq<Sequence>, sel: seq<nat>, i: nat)
    requires i < |sel| && sel == Decodable(start, |start|) && Decoding(w, b, start, seqs, sel[..i])
    ensures sel[..i + 1] == sel[..i] + [sel[i]] && sel[i] < |start| == |seqs| && seqs[sel[i]] == start[sel[i]]
    ensures ActiveOk(w, b, seqs[sel[i]]) && start[sel[i]].id in Ids(start)
  {
    hide ActiveOk, DoneOk, Advanced, Decodable, Ids;
    assert sel[i] !in sel[..i];
    assert Settled(w, b, seqs[sel[i]]);
  }

  /** Row `i` of a decode batch belongs to the `i`-th selected sequence. */
  ghost predicate RowOfStep(depth: nat, start: seq<Sequence>, sel: seq<nat>, i: nat, pad: int,
                            logits: seq<seq<Logits>>, kv: seq<seq<seq<KV>>>)
  {
    i < |sel| && sel[i] < |start| && 0 <= pad && MC.RowIsFullPass(depth, start[sel[i]].gen.tokenIds, pad, i, logits, kv)
  }

  /** The sequence's inputs to a decode step. */
  ghost predicate InputsOf(depth: nat, start: seq<Sequence>, sel: seq<nat>, i: nat, view: seq<seq<KV>>, length: nat, token: int) {
    i < |sel| && sel[i] < |start| && MC.DecodeReady(start[sel[i]].gen.tokenIds, view, length, token, depth)
  }

  lemma ActiveIsReady(w: World, b: Books, s: Sequence)
    requires ActiveOk(w, b, s)
    ensures s.cache.value < |b.lists| && Whole(b.lists[s.cache.value], w.depth)
    ensures s.pending.Some? && |b.lists[s.cache.value]| == |s.gen.tokenIds| - 1
    ensures MC.DecodeReady(s.gen.tokenIds, MC.View(b.lists[s.cache.value], w.depth), |s.gen.tokenIds| - 1, s.pending.value, w.depth)
  {
    hide Running, Mine;
    MC.ViewOfTruth(b.lists[s.cache.value], s.gen.tokenIds, w.depth);
  }

  /** The token ids of the selected sequences. */
  function TokensOf(seqs: seq<Sequence>, sel: seq<nat>): (r: seq<seq<int>>)
    requires forall k :: 0 <= k < |sel| ==> sel[k] < |seqs|
    ensures |r| == |sel| && forall k :: 0 <= k < |sel| ==> r[k] == seqs[sel[k]].gen.tokenIds
  {
    if sel == [] then [] else TokensOf(seqs, sel[..|sel| - 1]) + [seqs[sel[|sel| - 1]].gen.tokenIds]
  }

  // ------------------------------------------------------------------ cancellation

  /** The first `i` sequences were swept: the flagged ones are answered, the rest untouched. */
  ghost predicate Swept(w: World, b: Books, start: seq<Sequence>, seqs: seq<Sequence>, cancelled: set<nat>, i: nat) {
    && |seqs| == |start| && DistinctIds(start)
    && forall j :: 0 <= j < |start| ==>
         if j < i && start[j].id in cancelled then CancelledSeq(w, b, start[j], seqs[j])
         else seqs[j] == start[j] && Stoppable(w, b, start[j])
  }

  ghost predicate CancelledSeq(w: World, b: Books, s: Sequence, s': Sequence) {
    Running(w, s.gen) && s'.id == s.id && s'.gen == Finish(w, s.gen, Cancelled, true) && DoneOk(w, b, s')
  }

  lemma SweptNext(w: World, b: Books, b': Books, start: seq<Sequence>, seqs: seq<Sequence>, cancelled: set<nat>, i: nat, s': Sequence)
    requires Swept(w, b, start, seqs, cancelled, i) && i < |start| && Outside(b, b', {start[i].id})
    requires start[i].id in cancelled && CancelledSeq(w, b', start[i], s')
    ensures Swept(w, b', start, seqs[i := s'], cancelled, i + 1)
  {
    hide Stoppable, DoneOk, Agree, Finish;
    var seqs' := seqs[i := s'];
    forall j | 0 <= j < |start|
      ensures if j < i + 1 && start[j].id in cancelled then CancelledSeq(w, b', start[j], seqs'[j])
              else seqs'[j] == start[j] && Stoppable(w, b', start[j])
    {
      if j != i {
        assert start[j].id != start[i].id && Agree(b, b', start[j].id);
        if j < i && start[j].id in cancelled {
          AgreeKeepsDone(w, b, b', seqs[j]);
        } else {
          AgreeKeepsStoppable(w, b, b', start[j]);
        }
      }
    }
  }

  lemma SweptAt(w: World, b: Books, start: seq<Sequence>, seqs: seq<Sequence>, cancelled: set<nat>, i: nat)
    requires Swept(w, b, start, seqs, cancelled, i) && i < |start|
    ensures |seqs| == |start| && seqs[i] == start[i] && Stoppable(w, b, seqs[i]) && seqs[i].id in Ids(start)
  {
  }

  lemma SweptSkip(w: World, b: Books, start: seq<Sequence>, seqs: seq<Sequence>, cancelled: set<nat>, i: nat)
    requires Swept(w, b, start, seqs, cancelled, i) && i < |start| && start[i].id !in cancelled
    ensures Swept(w, b, start, seqs, cancelled, i + 1)
  {
  }
}
