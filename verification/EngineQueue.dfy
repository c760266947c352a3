/** The engine's queue as a whole: nothing is lost or reordered, admission keeps the budget,
    and every working iteration shrinks the work that is left. */
module EngineQueues {
  import opened Wrappers
  import opened PoolCapacity
  import opened Generations
  import opened EngineStates

  // ------------------------------------------------------------------ conservation

  /** Arrival order. */
  ghost predicate Ordered(seqs: seq<Sequence>) {
    forall j, k :: 0 <= j < k < |seqs| ==> seqs[j].id < seqs[k].id
  }

  ghost predicate AllWaiting(w: World, b: Books, seqs: seq<Sequence>) {
    forall j :: 0 <= j < |seqs| ==> WaitingOk(w, b, seqs[j])
  }

  ghost predicate AllActive(w: World, b: Books, seqs: seq<Sequence>) {
    forall j :: 0 <= j < |seqs| ==> ActiveOk(w, b, seqs[j])
  }

  /** The sequence is the one that arrived under its number. */
  ghost predicate Known(arrivals: seq<Request>, s: Sequence) {
    s.id < |arrivals| && s.gen.request == arrivals[s.id]
  }

  /** An answer is the naive loop's unless the request's cancel flag was seen. */
  ghost predicate Answered(w: World, arrivals: seq<Request>, flagged: set<nat>, id: nat, g: Generation) {
    id < |arrivals| && g.request == arrivals[id] && (id in flagged || g == Reference(w, arrivals[id]))
  }

  /** Every arrival is answered, in the queue or lost; the queue is in arrival order, and nothing
      else exists.  Only flagged requests are lost, and those get no answer. */
  ghost predicate Consistent(w: World, b: Books, arrivals: seq<Request>, flagged: set<nat>, queue: seq<Sequence>) {
    && Ordered(queue)
    && (forall j :: 0 <= j < |queue| ==> Known(arrivals, queue[j]))
    && (forall i :: i in b.owner ==> b.owner[i] < |arrivals|)
    && (forall id :: id in b.outcome ==> Answered(w, arrivals, flagged, id, b.outcome[id]))
    && (forall id: nat :: id < |arrivals| ==> id in b.outcome || id in Ids(queue) || id in b.lost)
    && (forall id :: id in b.lost ==> id < |arrivals| && id in flagged && id !in b.outcome)
  }

  /** The sequences that are not finished, in order. */
  function Unfinished(seqs: seq<Sequence>): (r: seq<Sequence>)
    ensures |r| <= |seqs| && forall s :: s in r <==> s in seqs && !s.gen.finished
  {
    if seqs == [] then [] else
      var last := seqs[|seqs| - 1];
      Unfinished(seqs[..|seqs| - 1]) + (if last.gen.finished then [] else [last])
  }

  lemma {:induction false} UnfinishedOrdered(seqs: seq<Sequence>)
    requires Ordered(seqs)
    ensures Ordered(Unfinished(seqs))
  {
    if seqs != [] {
      UnfinishedOrdered(seqs[..|seqs| - 1]);
      forall s | s in Unfinished(seqs[..|seqs| - 1]) ensures s.id < seqs[|seqs| - 1].id {
        assert s in seqs[..|seqs| - 1];
      }
    }
  }

  lemma OrderedParts(a: seq<Sequence>, b: seq<Sequence>)
    ensures Ordered(a + b) <==> Ordered(a) && Ordered(b) && forall s, t :: s in a && t in b ==> s.id < t.id
  {
    var q := a + b;
    if Ordered(q) {
      forall j, k | 0 <= j < k < |a| ensures a[j].id < a[k].id {
        assert q[j].id < q[k].id;
      }
      forall j, k | 0 <= j < k < |b| ensures b[j].id < b[k].id {
        assert q[|a| + j].id < q[|a| + k].id;
      }
      forall s, t | s in a && t in b ensures s.id < t.id {
        var j :| 0 <= j < |a| && a[j] == s;
        var k :| 0 <= k < |b| && b[k] == t;
        assert q[j].id < q[|a| + k].id;
      }
    }
  }

  /** What became of a processed sequence. */
  ghost predicate Outcome(w: World, b: Books, flagged: set<nat>, s: Sequence, s': Sequence) {
    && s'.id == s.id && s'.gen.request == s.gen.request && s.id !in b.lost
    && if s'.gen.finished then DoneOk(w, b, s') && (s'.id in flagged || s'.gen == Reference(w, s'.gen.request))
       else s'.id !in b.outcome
  }

  /** `p` was processed into `done` (with `Outside` for everyone else) and its finished
      sequences are dropped: the queue stays consistent. */
  lemma DropFinished(w: World, b: Books, b': Books, arrivals: seq<Request>, flagged: set<nat>,
                     a: seq<Sequence>, p: seq<Sequence>, done: seq<Sequence>, c: seq<Sequence>)
    requires Consistent(w, b, arrivals, flagged, a + p + c) && Outside(b, b', Ids(p)) && |done| == |p|
    requires forall j :: 0 <= j < |p| ==> Outcome(w, b', flagged, p[j], done[j])
    ensures Consistent(w, b', arrivals, flagged, a + Unfinished(done) + c)
  {
    hide Outcome, Ids, Unfinished, Answered, Agree;
    DropKeepsOrder(w, b', flagged, a, p, done, c);
    DropKeepsKnown(w, b, b', arrivals, flagged, a, p, done, c);
    DropKeepsBooks(w, b, b', arrivals, flagged, a, p, done, c);
    DropKeepsEveryone(w, b, b', arrivals, flagged, a, p, done, c);
  }

  /** `r` lists, in order, some of the ids of `p`. */
  ghost predicate SomeOf(r: seq<Sequence>, p: seq<Sequence>) {
    Ordered(r) && forall s :: s in r ==> exists t :: t in p && t.id == s.id
  }

  lemma UnfinishedAreSomeOf(w: World, b': Books, flagged: set<nat>, p: seq<Sequence>, done: seq<Sequence>)
    requires Ordered(p) && |done| == |p| && forall j :: 0 <= j < |p| ==> Outcome(w, b', flagged, p[j], done[j])
    ensures SomeOf(Unfinished(done), p)
  {
    forall j, k | 0 <= j < k < |done| ensures done[j].id < done[k].id {
      assert Outcome(w, b', flagged, p[j], done[j]) && Outcome(w, b', flagged, p[k], done[k]);
    }
    UnfinishedOrdered(done);
    forall s | s in Unfinished(done) ensures exists t :: t in p && t.id == s.id {
      var j :| 0 <= j < |done| && done[j] == s;
      assert Outcome(w, b', flagged, p[j], done[j]) && p[j] in p;
    }
  }

  lemma SomeOfKeepsOrder(a: seq<Sequence>, p: seq<Sequence>, r: seq<Sequence>, c: seq<Sequence>)
    requires Ordered(a + p + c) && SomeOf(r, p)
    ensures Ordered(a + r + c)
  {
    hide Ordered;
    OrderedParts(a + p, c);
    OrderedParts(a, p);
    OrderedParts(a, r) by {
      assert Ordered(r);
    }
    OrderedParts(a + r, c);
  }

  lemma DropKeepsOrder(w: World, b': Books, flagged: set<nat>, a: seq<Sequence>, p: seq<Sequence>, done: seq<Sequence>, c: seq<Sequence>)
    requires Ordered(a + p + c) && |done| == |p| && forall j :: 0 <= j < |p| ==> Outcome(w, b', flagged, p[j], done[j])
    ensures Ordered(a + Unfinished(done) + c)
  {
    hide Ordered, Outcome, SomeOf, Unfinished;
    OrderedParts(a + p, c);
    OrderedParts(a, p);
    UnfinishedAreSomeOf(w, b', flagged, p, done);
    SomeOfKeepsOrder(a, p, Unfinished(done), c);
  }

  lemma DropKeepsKnown(w: World, b: Books, b': Books, arrivals: seq<Request>, flagged: set<nat>,
                       a: seq<Sequence>, p: seq<Sequence>, done: seq<Sequence>, c: seq<Sequence>)
    requires Consistent(w, b, arrivals, flagged, a + p + c) && |done| == |p|
    requires forall j :: 0 <= j < |p| ==> Outcome(w, b', flagged, p[j], done[j])
    ensures forall s :: s in a + Unfinished(done) + c ==> Known(arrivals, s)
  {
    forall s | s in a + Unfinished(done) + c ensures Known(arrivals, s) {
      if s in Unfinished(done) {
        var j :| 0 <= j < |done| && done[j] == s;
        assert Outcome(w, b', flagged, p[j], done[j]) && (a + p + c)[|a| + j] == p[j];
      } else {
        assert s in a + p + c;
      }
    }
  }

  lemma DropKeepsBooks(w: World, b: Books, b': Books, arrivals: seq<Request>, flagged: set<nat>,
                       a: seq<Sequence>, p: seq<Sequence>, done: seq<Sequence>, c: seq<Sequence>)
    requires Consistent(w, b, arrivals, flagged, a + p + c) && Outside(b, b', Ids(p)) && |done| == |p|
    requires forall j :: 0 <= j < |p| ==> Outcome(w, b', flagged, p[j], done[j])
    ensures forall i :: i in b'.owner ==> b'.owner[i] < |arrivals|
    ensures forall id :: id in b'.outcome ==> Answered(w, arrivals, flagged, id, b'.outcome[id])
    ensures forall id :: id in b'.lost ==> id < |arrivals| && id in flagged && id !in b'.outcome
  {
    hide Reference;
    forall id | id in Ids(p) ensures id < |arrivals| && id !in b'.lost && (id in b'.outcome ==> Answered(w, arrivals, flagged, id, b'.outcome[id])) {
      var j :| 0 <= j < |p| && p[j].id == id;
      assert Outcome(w, b', flagged, p[j], done[j]) && (a + p + c)[|a| + j] == p[j];
    }
    forall i | i in b'.owner ensures b'.owner[i] < |arrivals| {
      if b'.owner[i] !in Ids(p) {
        assert Agree(b, b', b'.owner[i]);
      }
    }
    forall id | id in b'.outcome ensures Answered(w, arrivals, flagged, id, b'.outcome[id]) {
      if id !in Ids(p) {
        assert Agree(b, b', id);
      }
    }
    forall id | id in b'.lost ensures id < |arrivals| && id in flagged && id !in b'.outcome {
      assert Agree(b, b', id);
    }
  }

  lemma DropKeepsEveryone(w: World, b: Books, b': Books, arrivals: seq<Request>, flagged: set<nat>,
                          a: seq<Sequence>, p: seq<Sequence>, done: seq<Sequence>, c: seq<Sequence>)
    requires Consistent(w, b, arrivals, flagged, a + p + c) && Outside(b, b', Ids(p)) && |done| == |p|
    requires forall j :: 0 <= j < |p| ==> Outcome(w, b', flagged, p[j], done[j])
    ensures forall id: nat :: id < |arrivals| ==> id in b'.outcome || id in Ids(a + Unfinished(done) + c) || id in b'.lost
  {
    hide Reference, Answered;
    var q := a + Unfinished(done) + c;
    forall id: nat | id < |arrivals| ensures id in b'.outcome || id in Ids(q) || id in b'.lost {
      if id in Ids(p) {
        var j :| 0 <= j < |p| && p[j].id == id;
        assert Outcome(w, b', flagged, p[j], done[j]) && done[j] in done;
        assert !done[j].gen.finished ==> done[j] in q;
      } else {
        assert Agree(b, b', id);
        if id !in b.outcome && id !in b.lost {
          var j :| 0 <= j < |a + p + c| && (a + p + c)[j].id == id;
          assert (a + p + c)[j] !in p;
          assert (a + p + c)[j] in q;
        }
      }
    }
  }

  /** A new request joins at the end. */
  lemma Arrive(w: World, b: Books, b': Books, arrivals: seq<Request>, flagged: set<nat>, queue: seq<Sequence>, s: Sequence)
    requires Consistent(w, b, arrivals, flagged, queue) && s.id == |arrivals|
    requires b'.outcome == b.outcome && b'.lost == b.lost
    requires forall i :: i in b'.owner ==> b'.owner[i] == s.id || (i in b.owner && b'.owner[i] == b.owner[i])
    ensures Consistent(w, b', arrivals + [s.gen.request], flagged, queue + [s])
  {
    hide Reference, Known;
    var arrivals' := arrivals + [s.gen.request];
    forall id | id in b'.outcome ensures Answered(w, arrivals', flagged, id, b'.outcome[id]) {
      assert Answered(w, arrivals, flagged, id, b.outcome[id]);
    }
    ArriveLast(arrivals, queue, s);
    forall id: nat | id < |arrivals'| ensures id in b'.outcome || id in Ids(queue + [s]) || id in b'.lost {
      assert id < |arrivals| ==> id in b.outcome || id in Ids(queue) || id in b.lost;
    }
  }

  lemma ArriveLast(arrivals: seq<Request>, queue: seq<Sequence>, s: Sequence)
    requires Ordered(queue) && s.id == |arrivals| && forall j :: 0 <= j < |queue| ==> Known(arrivals, queue[j])
    ensures Ordered(queue + [s]) && Ids(queue + [s]) == Ids(queue) + {s.id}
    ensures forall j :: 0 <= j < |queue + [s]| ==> Known(arrivals + [s.gen.request], (queue + [s])[j])
  {
    assert (queue + [s])[..|queue|] == queue;
    forall j | 0 <= j < |queue| ensures Known(arrivals + [s.gen.request], queue[j]) && queue[j].id < s.id {
      assert Known(arrivals, queue[j]);
    }
  }

  /** Seeing more flags changes no answer. */
  lemma MoreFlags(w: World, b: Books, arrivals: seq<Request>, flagged: set<nat>, more: set<nat>, queue: seq<Sequence>)
    requires Consistent(w, b, arrivals, flagged, queue)
    ensures Consistent(w, b, arrivals, flagged + more, queue)
  {
    hide Reference;
    forall id | id in b.outcome ensures Answered(w, arrivals, flagged + more, id, b.outcome[id]) {
      assert Answered(w, arrivals, flagged, id, b.outcome[id]);
    }
  }

  /** Sequences outside a processed part keep their state. */
  lemma OthersKeepWaiting(w: World, b: Books, b': Books, ids: set<nat>, seqs: seq<Sequence>)
    requires AllWaiting(w, b, seqs) && Outside(b, b', ids) && forall s :: s in seqs ==> s.id !in ids
    ensures AllWaiting(w, b', seqs)
  {
    hide WaitingOk, Agree;
    forall j | 0 <= j < |seqs| ensures WaitingOk(w, b', seqs[j]) {
      assert seqs[j] in seqs && Agree(b, b', seqs[j].id);
      AgreeKeepsWaiting(w, b, b', seqs[j]);
    }
  }

  lemma OthersKeepActive(w: World, b: Books, b': Books, ids: set<nat>, seqs: seq<Sequence>)
    requires AllActive(w, b, seqs) && Outside(b, b', ids) && forall s :: s in seqs ==> s.id !in ids
    ensures AllActive(w, b', seqs)
  {
    hide ActiveOk, Agree;
    forall j | 0 <= j < |seqs| ensures ActiveOk(w, b', seqs[j]) {
      assert seqs[j] in seqs && Agree(b, b', seqs[j].id);
      AgreeKeepsActive(w, b, b', seqs[j]);
    }
  }

  // --------------------------------------------------------------- admission, budget

  function Cost(s: Sequence): nat {
    RequestCost(s.gen.request)
  }

  function TotalCost(seqs: seq<Sequence>): nat {
    if seqs == [] then 0 else TotalCost(seqs[..|seqs| - 1]) + Cost(seqs[|seqs| - 1])
  }

  /** At most `size` run, and either one alone or within `tokens`. */
  ghost predicate WithinBudget(seqs: seq<Sequence>, size: int, tokens: int) {
    |seqs| <= Max(size, 0) && (|seqs| <= 1 || TotalCost(seqs) <= tokens)
  }

  lemma {:induction false} UnfinishedCostsLess(seqs: seq<Sequence>)
    ensures TotalCost(Unfinished(seqs)) <= TotalCost(seqs)
  {
    hide Cost;
    if seqs != [] {
      var init, last := seqs[..|seqs| - 1], seqs[|seqs| - 1];
      UnfinishedCostsLess(init);
      TotalCostSnoc(Unfinished(init), last);
      assert Unfinished(init) + [] == Unfinished(init);
    }
  }

  lemma TotalCostSnoc(seqs: seq<Sequence>, s: Sequence)
    ensures TotalCost(seqs + [s]) == TotalCost(seqs) + Cost(s)
  {
    assert (seqs + [s])[..|seqs|] == seqs;
  }

  lemma {:induction false} TotalCostAppend(a: seq<Sequence>, b: seq<Sequence>)
    ensures TotalCost(a + b) == TotalCost(a) + TotalCost(b)
  {
    if b == [] {
      assert a + b == a;
    } else {
      TotalCostAppend(a, b[..|b| - 1]);
      assert (a + b)[..|a + b| - 1] == a + b[..|b| - 1];
    }
  }

  /** Entries in the caches of running sequences. */
  function TotalLength(b: Books, seqs: seq<Sequence>): nat
    requires forall j :: 0 <= j < |seqs| ==> seqs[j].cache.Some? && seqs[j].cache.value < |b.lists|
  {
    if seqs == [] then 0 else
      TotalLength(b, seqs[..|seqs| - 1]) + |b.lists[seqs[|seqs| - 1].cache.value]|
  }

  /** The live caches, even after the next decode step added a position to each, are paid
      for by the costs. */
  lemma {:induction false} CachesFitCosts(w: World, b: Books, seqs: seq<Sequence>)
    requires AllActive(w, b, seqs)
    ensures forall j :: 0 <= j < |seqs| ==> seqs[j].cache.Some? && seqs[j].cache.value < |b.lists|
    ensures TotalLength(b, seqs) + |seqs| <= TotalCost(seqs)
  {
    hide Mine, Running;
    if seqs != [] {
      var s := seqs[|seqs| - 1];
      assert ActiveOk(w, b, s);
      RunningHasBudget(w, s.gen);
      CachesFitCosts(w, b, seqs[..|seqs| - 1]);
    }
  }

  // -------------------------------------------------------------------- blocks needed

  /** Blocks that a queue may come to take when nothing is shared. */
  function TotalBlocks(seqs: seq<Sequence>, size: Pos): nat {
    if seqs == [] then 0 else TotalBlocks(seqs[..|seqs| - 1], size) + BlocksFor(Cost(seqs[|seqs| - 1]), size)
  }

  function RequestBlocks(rs: seq<Request>, size: Pos): nat {
    if rs == [] then 0 else RequestBlocks(rs[..|rs| - 1], size) + BlocksFor(RequestCost(rs[|rs| - 1]), size)
  }

  lemma TotalBlocksSnoc(seqs: seq<Sequence>, s: Sequence, size: Pos)
    ensures TotalBlocks(seqs + [s], size) == TotalBlocks(seqs, size) + BlocksFor(Cost(s), size)
  {
    assert (seqs + [s])[..|seqs|] == seqs;
  }

  lemma {:induction false} TotalBlocksAppend(a: seq<Sequence>, b: seq<Sequence>, size: Pos)
    ensures TotalBlocks(a + b, size) == TotalBlocks(a, size) + TotalBlocks(b, size)
  {
    hide BlocksFor, Cost;
    if b == [] {
      assert a + b == a;
    } else {
      TotalBlocksAppend(a, b[..|b| - 1], size);
      assert (a + b)[..|a + b| - 1] == a + b[..|b| - 1];
    }
  }

  lemma {:induction false} RequestBlocksAppend(a: seq<Request>, b: seq<Request>, size: Pos)
    ensures RequestBlocks(a + b, size) == RequestBlocks(a, size) + RequestBlocks(b, size)
  {
    hide BlocksFor, RequestCost;
    if b == [] {
      assert a + b == a;
    } else {
      RequestBlocksAppend(a, b[..|b| - 1], size);
      assert (a + b)[..|a + b| - 1] == a + b[..|b| - 1];
    }
  }

  lemma {:induction false} UnfinishedTakesLess(seqs: seq<Sequence>, size: Pos)
    ensures TotalBlocks(Unfinished(seqs), size) <= TotalBlocks(seqs, size)
  {
    hide BlocksFor, Cost;
    if seqs != [] {
      var init, last := seqs[..|seqs| - 1], seqs[|seqs| - 1];
      UnfinishedTakesLess(init, size);
      TotalBlocksSnoc(Unfinished(init), last, size);
      assert Unfinished(init) + [] == Unfinished(init);
    }
  }

  lemma {:induction false} SameBlocks(p: seq<Sequence>, done: seq<Sequence>, size: Pos)
    requires |done| == |p| && forall j :: 0 <= j < |p| ==> Cost(done[j]) == Cost(p[j])
    ensures TotalBlocks(done, size) == TotalBlocks(p, size)
  {
    hide BlocksFor, Cost;
    if p != [] {
      SameBlocks(p[..|p| - 1], done[..|p| - 1], size);
    }
  }

  /** The queue's costs, looked up by number, are the queue's blocks. */
  lemma {:induction false} QueuePays(costs: seq<nat>, queue: seq<Sequence>, size: Pos)
    requires Ordered(queue) && forall j :: 0 <= j < |queue| ==> queue[j].id < |costs| && costs[queue[j].id] == Cost(queue[j])
    ensures CostBlocks(costs, Ids(queue), size) <= TotalBlocks(queue, size)
  {
    hide CostBlocks, BlocksFor, Cost;
    if queue == [] {
      NoBlocks(costs, size);
    } else {
      var n := |queue| - 1;
      QueuePays(costs, queue[..n], size);
      assert queue[n].id !in Ids(queue[..n]);
      CostBlocksAdd(costs, Ids(queue[..n]), queue[n].id, size);
    }
  }

  lemma {:induction false} NoBlocks(costs: seq<nat>, size: Pos)
    ensures CostBlocks(costs, {}, size) == 0
  {
    if costs != [] {
      NoBlocks(costs[..|costs| - 1], size);
    }
  }

  /** Whatever is owned is owned by the queue or by lost requests, so a crowded pool is too small
      for both. */
  lemma CrowdedQueue(w: World, b: Books, arrivals: seq<Request>, flagged: set<nat>, active: seq<Sequence>,
                     new_: seq<Sequence>, waiting: seq<Sequence>, ids: set<nat>, size: Pos, blocks: nat)
    requires Queued(w, b, arrivals, flagged, active, new_, waiting) && Tidy(w, b)
    requires Crowded(b, ids, size, blocks) && ids <= Ids(active + new_ + waiting)
    ensures TotalBlocks(active + new_ + waiting, size) + CostBlocks(b.costs, b.lost, size) > blocks
  {
    hide CostBlocks, TotalBlocks, Reference, OutcomeOk, Ids, BlocksFor, Cost, Known;
    var q := active + new_ + waiting;
    forall id | id in Owners(b) + ids ensures id in Ids(q) + b.lost {
      if id in Owners(b) {
        assert id < |arrivals| && id !in b.outcome;
      }
    }
    forall j | 0 <= j < |q| ensures q[j].id < |b.costs| && b.costs[q[j].id] == Cost(q[j]) {
      QueuedCost(w, b, active, new_, waiting, j);
    }
    QueuePays(b.costs, q, size);
    CostBlocksMore(b.costs, Owners(b) + ids, Ids(q) + b.lost, size);
    CostBlocksUnion(b.costs, Ids(q), b.lost, size);
  }

  lemma QueuedCost(w: World, b: Books, active: seq<Sequence>, new_: seq<Sequence>, waiting: seq<Sequence>, j: nat)
    requires AllActive(w, b, active) && AllWaiting(w, b, new_) && AllWaiting(w, b, waiting) && j < |active + new_ + waiting|
    ensures var s := (active + new_ + waiting)[j]; s.id < |b.costs| && b.costs[s.id] == Cost(s)
  {
    hide Running, CacheOk, PrefixOk, RequestCost;
    var s := (active + new_ + waiting)[j];
    if j < |active| {
      assert ActiveOk(w, b, active[j]);
    } else if j < |active + new_| {
      assert WaitingOk(w, b, new_[j - |active|]);
    } else {
      assert WaitingOk(w, b, waiting[j - |active + new_|]);
    }
    assert Mine(b, s);
  }

  // ------------------------------------------------------------------------ progress

  /** Iterations a sequence may still need. */
  function Work(s: Sequence): int {
    Max(1, s.gen.request.params.maxTokens) - s.gen.generated
  }

  function TotalWork(seqs: seq<Sequence>): int {
    if seqs == [] then 0 else TotalWork(seqs[..|seqs| - 1]) + Work(seqs[|seqs| - 1])
  }

  lemma {:induction false} TotalWorkAppend(a: seq<Sequence>, b: seq<Sequence>)
    ensures TotalWork(a + b) == TotalWork(a) + TotalWork(b)
  {
    if b == [] {
      assert a + b == a;
    } else {
      TotalWorkAppend(a, b[..|b| - 1]);
      assert (a + b)[..|a + b| - 1] == a + b[..|b| - 1];
    }
  }

  /** Every dropped sequence pays for one unit of work. */
  lemma {:induction false} WorkShrinks(p: seq<Sequence>, done: seq<Sequence>)
    requires |done| == |p| && forall j :: 0 <= j < |p| ==> Work(p[j]) >= 1
    requires forall j :: 0 <= j < |p| ==> done[j].gen.finished || Work(done[j]) <= Work(p[j])
    ensures TotalWork(Unfinished(done)) + |p| - |Unfinished(done)| <= TotalWork(p)
  {
    hide Work, TotalWork;
    if p == [] {
      WorkOfNone();
    } else {
      WorkShrinks(p[..|p| - 1], done[..|p| - 1]);
      LastUnfinished(p, done);
    }
  }

  /** So does every generated token. */
  lemma {:induction false} WorkAdvances(p: seq<Sequence>, done: seq<Sequence>)
    requires |done| == |p| && forall j :: 0 <= j < |p| ==> Work(p[j]) >= 1
    requires forall j :: 0 <= j < |p| ==> done[j].gen.finished || Work(done[j]) <= Work(p[j]) - 1
    ensures TotalWork(Unfinished(done)) + |p| <= TotalWork(p)
  {
    hide Work, TotalWork;
    if p == [] {
      WorkOfNone();
    } else {
      WorkAdvances(p[..|p| - 1], done[..|p| - 1]);
      LastUnfinished(p, done);
    }
  }

  lemma LastUnfinished(p: seq<Sequence>, done: seq<Sequence>)
    requires |done| == |p| > 0
    ensures var n := |p| - 1;
      && TotalWork(p) == TotalWork(p[..n]) + Work(p[n])
      && TotalWork(Unfinished(done)) == TotalWork(Unfinished(done[..n])) + (if done[n].gen.finished then 0 else Work(done[n]))
      && |Unfinished(done)| == |Unfinished(done[..n])| + (if done[n].gen.finished then 0 else 1)
  {
    hide Work, TotalWork;
    var n := |p| - 1;
    var init, last := Unfinished(done[..n]), if done[n].gen.finished then [] else [done[n]];
    assert p == p[..n] + [p[n]] && Unfinished(done) == init + last;
    TotalWorkAppend(p[..n], [p[n]]);
    TotalWorkAppend(init, last);
    WorkOfOne(p[n]);
    WorkOfOne(done[n]);
    WorkOfNone();
  }

  lemma {:induction false} WorkNotNegative(seqs: seq<Sequence>)
    requires forall j :: 0 <= j < |seqs| ==> Work(seqs[j]) >= 1
    ensures TotalWork(seqs) >= 0
  {
    hide Work;
    if seqs != [] {
      WorkNotNegative(seqs[..|seqs| - 1]);
    }
  }

  lemma WorkOfNone()
    ensures TotalWork([]) == 0
  {
  }

  lemma WorkOfOne(s: Sequence)
    ensures TotalWork([s]) == Work(s)
  {
    WorkOfNone();
    assert [s][..0] == [];
  }

  // ------------------------------------------------------------- dropped before prefill

  /** The sequences whose flag is not in `gone`, in order. */
  function Without(seqs: seq<Sequence>, gone: set<nat>): (r: seq<Sequence>)
    ensures |r| <= |seqs| && forall s :: s in r <==> s in seqs && s.id !in gone
  {
    if seqs == [] then [] else
      var last := seqs[|seqs| - 1];
      Without(seqs[..|seqs| - 1], gone) + (if last.id in gone then [] else [last])
  }

  lemma {:induction false} WithoutKeepsOrder(seqs: seq<Sequence>, gone: set<nat>)
    requires Ordered(seqs)
    ensures Ordered(Without(seqs, gone))
  {
    if seqs != [] {
      WithoutKeepsOrder(seqs[..|seqs| - 1], gone);
      forall s | s in Without(seqs[..|seqs| - 1], gone) ensures s.id < seqs[|seqs| - 1].id {
        assert s in seqs[..|seqs| - 1];
      }
    }
  }

  /** A dropped sequence pays for its work and its cost. */
  lemma {:induction false} WithoutShrinks(seqs: seq<Sequence>, gone: set<nat>, size: Pos)
    requires forall j :: 0 <= j < |seqs| ==> Work(seqs[j]) >= 1
    ensures var r := Without(seqs, gone);
      && TotalWork(r) + |seqs| - |r| <= TotalWork(seqs) && TotalCost(r) <= TotalCost(seqs)
      && TotalBlocks(r, size) <= TotalBlocks(seqs, size)
  {
    hide Work, Cost, BlocksFor;
    if seqs != [] {
      var init, last := seqs[..|seqs| - 1], seqs[|seqs| - 1];
      WithoutShrinks(init, gone, size);
      var kept := Without(init, gone);
      TotalCostSnoc(kept, last);
      TotalBlocksSnoc(kept, last, size);
      TotalWorkAppend(kept, [last]);
      WorkOfOne(last);
      assert kept + [] == kept;
    }
  }

  /** What is dropped moves from the queue to the lost. */
  lemma {:induction false} WithoutPays(costs: seq<nat>, seqs: seq<Sequence>, gone: set<nat>, lost: set<nat>, size: Pos)
    requires forall j :: 0 <= j < |seqs| ==> seqs[j].id < |costs| && costs[seqs[j].id] == Cost(seqs[j])
    ensures TotalBlocks(Without(seqs, gone), size) + CostBlocks(costs, lost + Ids(seqs) * gone, size) <=
      TotalBlocks(seqs, size) + CostBlocks(costs, lost, size)
  {
    hide Cost, BlocksFor, CostBlocks, Without, Ids, TotalBlocks;
    if seqs == [] {
      assert lost + Ids(seqs) * gone == lost;
      assert Without(seqs, gone) == [];
    } else {
      var init, last := seqs[..|seqs| - 1], seqs[|seqs| - 1];
      WithoutPays(costs, init, gone, lost, size);
      var before := lost + Ids(init) * gone;
      WithoutLast(seqs, gone, size);
      if last.id in gone && last.id !in before {
        CostBlocksAdd(costs, before, last.id, size);
        assert lost + Ids(seqs) * gone == before + {last.id};
      } else {
        assert lost + Ids(seqs) * gone == before;
      }
    }
  }

  lemma WithoutLast(seqs: seq<Sequence>, gone: set<nat>, size: Pos)
    requires seqs != []
    ensures var init, last := seqs[..|seqs| - 1], seqs[|seqs| - 1];
      && TotalBlocks(seqs, size) == TotalBlocks(init, size) + BlocksFor(Cost(last), size)
      && TotalBlocks(Without(seqs, gone), size) ==
           TotalBlocks(Without(init, gone), size) + (if last.id in gone then 0 else BlocksFor(Cost(last), size))
      && Ids(seqs) == Ids(init) + {last.id}
  {
    hide Cost, BlocksFor;
    var kept := Without(seqs[..|seqs| - 1], gone);
    TotalBlocksSnoc(kept, seqs[|seqs| - 1], size);
    assert kept + [] == kept;
  }

  /** A sweep keeps exactly the sequences whose flag it did not see. */
  lemma {:induction false} SweptIsWithout(start: seq<Sequence>, seqs: seq<Sequence>, cancelled: set<nat>)
    requires |seqs| == |start| && forall j :: 0 <= j < |start| ==>
      if start[j].id in cancelled then seqs[j].gen.finished else seqs[j] == start[j] && !start[j].gen.finished
    ensures Unfinished(seqs) == Without(start, cancelled)
  {
    if start != [] {
      SweptIsWithout(start[..|start| - 1], seqs[..|start| - 1], cancelled);
    }
  }

  /** The taken sequences whose flag was set meanwhile are dropped: nothing else changes. */
  lemma DropKeeps(w: World, b: Books, b': Books, arrivals: seq<Request>, flagged: set<nat>, active: seq<Sequence>,
                  new_: seq<Sequence>, waiting: seq<Sequence>, gone: set<nat>)
    requires Queued(w, b, arrivals, flagged, active, new_, waiting) && gone <= flagged && Funded(b)
    requires b' == b.(lost := b.lost + Ids(new_) * gone)
    ensures Queued(w, b', arrivals, flagged, active, Without(new_, gone), waiting)
  {
    hide *;
    QueuedParts(w, b, arrivals, flagged, active, new_, waiting);
    QueueFields(w, b, arrivals, flagged, active, new_, waiting);
    DropIsOutside(b, b', Ids(new_) * gone);
    OthersKeepActive(w, b, b', Ids(new_) * gone, active);
    OthersKeepWaiting(w, b, b', Ids(new_) * gone, waiting);
    OutsideFewer(b, b', Ids(new_), gone);
    SurvivorsKeepWaiting(w, b, b', gone, new_, Without(new_, gone));
    DropKeepsConsistent(w, b, b', arrivals, flagged, active, new_, waiting, gone);
    QueueFromFields(w, b', arrivals, flagged, active, Without(new_, gone), waiting);
  }

  lemma WaitingCosts(w: World, b: Books, seqs: seq<Sequence>)
    requires AllWaiting(w, b, seqs)
    ensures forall j :: 0 <= j < |seqs| ==> seqs[j].id < |b.costs| && b.costs[seqs[j].id] == Cost(seqs[j])
  {
    hide RequestCost, PrefixOk;
    forall j | 0 <= j < |seqs| ensures seqs[j].id < |b.costs| && b.costs[seqs[j].id] == Cost(seqs[j]) {
      assert WaitingOk(w, b, seqs[j]);
    }
  }

  /** Taking fewer stays within the budget. */
  lemma BudgetKeeps(before: seq<Sequence>, new_: seq<Sequence>, kept: seq<Sequence>, size: int, tokens: int)
    requires WithinBudget(before + new_, size, tokens) && |kept| <= |new_| && TotalCost(kept) <= TotalCost(new_)
    ensures WithinBudget(before + kept, size, tokens)
  {
    TotalCostAppend(before, new_);
    TotalCostAppend(before, kept);
  }

  lemma DropIsOutside(b: Books, b': Books, ids: set<nat>)
    requires Funded(b) && b' == b.(lost := b.lost + ids)
    ensures Outside(b, b', ids)
  {
  }

  lemma DropKeepsConsistent(w: World, b: Books, b': Books, arrivals: seq<Request>, flagged: set<nat>, active: seq<Sequence>,
                            new_: seq<Sequence>, waiting: seq<Sequence>, gone: set<nat>)
    requires Consistent(w, b, arrivals, flagged, active + new_ + waiting) && gone <= flagged && AllWaiting(w, b, new_)
    requires b' == b.(lost := b.lost + Ids(new_) * gone)
    ensures Consistent(w, b', arrivals, flagged, active + Without(new_, gone) + waiting)
  {
    hide Answered, Known, WaitingOk, Ordered, Ids, Without;
    var q, q' := active + new_ + waiting, active + Without(new_, gone) + waiting;
    WithoutIsSomeOf(new_, gone, active, waiting);
    SomeOfKeepsOrder(active, new_, Without(new_, gone), waiting);
    forall j | 0 <= j < |q'| ensures Known(arrivals, q'[j]) {
      assert q'[j] in q' && q'[j] in q;
    }
    forall id | id in Ids(new_) * gone ensures id < |arrivals| && id !in b.outcome {
      var j :| 0 <= j < |new_| && new_[j].id == id;
      DroppedOne(w, b, arrivals, new_[j]) by {
        assert q[|active| + j] == new_[j];
      }
    }
    forall id: nat | id in Ids(q) ensures id in Ids(q') || id in b'.lost {
      KeptOrDropped(active, new_, waiting, gone, id);
    }
  }

  lemma KeptOrDropped(active: seq<Sequence>, new_: seq<Sequence>, waiting: seq<Sequence>, gone: set<nat>, id: nat)
    requires id in Ids(active + new_ + waiting)
    ensures id in Ids(active + Without(new_, gone) + waiting) || id in Ids(new_) * gone
  {
    hide Ids, Without;
    var q, q' := active + new_ + waiting, active + Without(new_, gone) + waiting;
    var j :| 0 <= j < |q| && q[j].id == id;
    if q[j] in new_ && id in gone {
      assert id in Ids(new_);
    } else {
      assert q[j] in q';
    }
  }

  lemma DroppedOne(w: World, b: Books, arrivals: seq<Request>, s: Sequence)
    requires WaitingOk(w, b, s) && Known(arrivals, s)
    ensures s.id < |arrivals| && s.id !in b.outcome
  {
  }

  lemma WithoutIsSomeOf(p: seq<Sequence>, gone: set<nat>, a: seq<Sequence>, c: seq<Sequence>)
    requires Ordered(a + p + c)
    ensures SomeOf(Without(p, gone), p)
  {
    OrderedParts(a + p, c);
    OrderedParts(a, p);
    WithoutKeepsOrder(p, gone);
  }

  // ------------------------------------------------------------- one sweep, one batch

  lemma SweptOutcomes(w: World, b: Books, flagged: set<nat>, start: seq<Sequence>, seqs: seq<Sequence>, cancelled: set<nat>)
    requires Swept(w, b, start, seqs, cancelled, |start|) && cancelled <= flagged
    ensures |seqs| == |start| && forall j :: 0 <= j < |start| ==> Outcome(w, b, flagged, start[j], seqs[j])
    ensures Unfinished(seqs) == Without(start, cancelled)
    ensures TotalWork(Unfinished(seqs)) + |start| - |Unfinished(seqs)| <= TotalWork(start)
    ensures TotalCost(Unfinished(seqs)) <= TotalCost(start)
    ensures forall size: Pos :: TotalBlocks(Unfinished(seqs), size) <= TotalBlocks(start, size)
  {
    hide Naive, Finish, Mine, TotalWork, TotalCost, TotalBlocks, Work;
    forall j | 0 <= j < |start|
      ensures Outcome(w, b, flagged, start[j], seqs[j]) && Work(start[j]) >= 1
      ensures seqs[j].gen.finished || Work(seqs[j]) <= Work(start[j])
      ensures if start[j].id in cancelled then seqs[j].gen.finished else seqs[j] == start[j] && !start[j].gen.finished
      ensures Cost(seqs[j]) == Cost(start[j])
    {
      SweptOutcome(w, b, flagged, start, seqs, cancelled, j);
    }
    WorkShrinks(start, seqs);
    SameCosts(start, seqs);
    UnfinishedCostsLess(seqs);
    forall size: Pos ensures TotalBlocks(Unfinished(seqs), size) <= TotalBlocks(start, size) {
      SameBlocks(start, seqs, size);
      UnfinishedTakesLess(seqs, size);
    }
    SweptIsWithout(start, seqs, cancelled);
  }

  lemma SweptOutcome(w: World, b: Books, flagged: set<nat>, start: seq<Sequence>, seqs: seq<Sequence>, cancelled: set<nat>, j: nat)
    requires Swept(w, b, start, seqs, cancelled, |start|) && cancelled <= flagged && j < |start|
    ensures |seqs| == |start| && Outcome(w, b, flagged, start[j], seqs[j]) && Work(start[j]) >= 1
    ensures seqs[j].gen.finished || Work(seqs[j]) <= Work(start[j])
    ensures if start[j].id in cancelled then seqs[j].gen.finished else seqs[j] == start[j] && !start[j].gen.finished
    ensures Cost(seqs[j]) == Cost(start[j])
  {
    hide Naive, Finish, Running;
    if start[j].id in cancelled {
      assert CancelledSeq(w, b, start[j], seqs[j]);
      FinishFinishes(w, start[j].gen, Cancelled, true);
      RunningWorks(w, start[j].gen);
    } else {
      assert Stoppable(w, b, start[j]);
      RunningWorks(w, start[j].gen);
    }
  }

  lemma RunningWorks(w: World, g: Generation)
    requires Running(w, g)
    ensures !g.finished && g.generated < Max(1, g.request.params.maxTokens)
  {
    NaiveIsGood(w, g.request, g.generated);
  }

  lemma {:induction false} SameCosts(p: seq<Sequence>, done: seq<Sequence>)
    requires |done| == |p| && forall j :: 0 <= j < |p| ==> Cost(done[j]) == Cost(p[j])
    ensures TotalCost(done) == TotalCost(p)
  {
    hide Cost;
    if p != [] {
      SameCosts(p[..|p| - 1], done[..|p| - 1]);
    }
  }

  /** Each sequence of a batch after prefill and decode: answered, or running further on. */
  ghost predicate Batched(w: World, b: Books, s: Sequence, s': Sequence) {
    && s'.id == s.id && s'.gen.request == s.gen.request
    && if s'.gen.finished then DoneOk(w, b, s') && s'.gen == Reference(w, s.gen.request)
       else ActiveOk(w, b, s') && s'.gen.generated > s.gen.generated
  }

  lemma BatchedIsOutcome(w: World, b: Books, flagged: set<nat>, s: Sequence, s': Sequence)
    requires Batched(w, b, s, s')
    ensures Outcome(w, b, flagged, s, s') && Cost(s') == Cost(s)
    ensures s'.gen.finished || (ActiveOk(w, b, s') && Work(s') <= Work(s) - 1)
  {
    hide Reference, Running, CacheOk;
    assert Mine(b, s');
  }

  lemma BatchedOutcomes(w: World, b: Books, flagged: set<nat>, p: seq<Sequence>, done: seq<Sequence>)
    requires |done| == |p| && forall j :: 0 <= j < |p| ==> Batched(w, b, p[j], done[j]) && Work(p[j]) >= 1
    ensures forall j :: 0 <= j < |p| ==> Outcome(w, b, flagged, p[j], done[j])
    ensures AllActive(w, b, Unfinished(done))
    ensures TotalWork(Unfinished(done)) + |p| <= TotalWork(p) && TotalCost(Unfinished(done)) <= TotalCost(p)
    ensures forall size: Pos :: TotalBlocks(Unfinished(done), size) <= TotalBlocks(p, size)
  {
    hide Batched, Outcome, ActiveOk, TotalWork, TotalCost, TotalBlocks;
    forall j | 0 <= j < |p|
      ensures Outcome(w, b, flagged, p[j], done[j]) && Cost(done[j]) == Cost(p[j])
      ensures done[j].gen.finished || Work(done[j]) <= Work(p[j]) - 1
      ensures done[j].gen.finished || ActiveOk(w, b, done[j])
    {
      BatchedIsOutcome(w, b, flagged, p[j], done[j]);
    }
    WorkAdvances(p, done);
    SameCosts(p, done);
    UnfinishedCostsLess(done);
    forall size: Pos ensures TotalBlocks(Unfinished(done), size) <= TotalBlocks(p, size) {
      SameBlocks(p, done, size);
      UnfinishedTakesLess(done, size);
    }
    var left := Unfinished(done);
    forall j | 0 <= j < |left| ensures ActiveOk(w, b, left[j]) {
      assert left[j] in left;
      var k :| 0 <= k < |done| && done[k] == left[j];
    }
  }

  /** Prefill, then decode: what became of each sequence of the batch. */
  lemma BatchedByBoth(w: World, b1: Books, b2: Books, p: seq<Sequence>, mid: seq<Sequence>, done: seq<Sequence>, n: nat)
    requires n <= |p| == |mid| && mid[..n] == p[..n]
    requires forall j :: n <= j < |p| ==> Advanced(w, b1, p[j], mid[j])
    requires Decoding(w, b2, mid, done, Decodable(mid, |mid|))
    ensures |done| == |p| && forall j :: 0 <= j < |p| && (j >= n || !p[j].gen.finished) ==> Batched(w, b2, p[j], done[j])
  {
    hide Reference, Mine, Running, CacheOk, Decodable;
    forall j | 0 <= j < |p| && (j >= n || !p[j].gen.finished) ensures Batched(w, b2, p[j], done[j]) {
      assert j < n ==> mid[j] == mid[..n][j] == p[j];
      DecodedOne(w, b2, mid, done, j);
    }
  }

  lemma DecodedOne(w: World, b: Books, mid: seq<Sequence>, done: seq<Sequence>, j: nat)
    requires j < |mid| && Decoding(w, b, mid, done, Decodable(mid, |mid|))
    ensures |done| == |mid|
    ensures if mid[j].gen.finished then done[j] == mid[j] && DoneOk(w, b, mid[j]) else Advanced(w, b, mid[j], done[j])
  {
    hide Reference, Mine, Running, CacheOk, Decodable, DoneOk, Advanced;
  }

  lemma SplitWaiting(w: World, b: Books, taken: seq<Sequence>, rest: seq<Sequence>)
    requires AllWaiting(w, b, taken + rest)
    ensures AllWaiting(w, b, taken) && AllWaiting(w, b, rest)
  {
    hide WaitingOk;
    forall j | 0 <= j < |taken| ensures WaitingOk(w, b, taken[j]) {
      assert (taken + rest)[j] == taken[j];
    }
    forall j | 0 <= j < |rest| ensures WaitingOk(w, b, rest[j]) {
      assert (taken + rest)[|taken| + j] == rest[j];
    }
  }

  lemma WaitingCanBeSwept(w: World, b: Books, seqs: seq<Sequence>, cancelled: set<nat>)
    requires AllWaiting(w, b, seqs) && DistinctIds(seqs)
    ensures Swept(w, b, seqs, seqs, cancelled, 0)
  {
    hide WaitingOk, Stoppable;
    forall j | 0 <= j < |seqs| ensures Stoppable(w, b, seqs[j]) {
      WaitingIsStoppable(w, b, seqs[j]);
    }
  }

  lemma ActiveCanBeSwept(w: World, b: Books, seqs: seq<Sequence>, cancelled: set<nat>)
    requires AllActive(w, b, seqs) && DistinctIds(seqs)
    ensures Swept(w, b, seqs, seqs, cancelled, 0)
  {
    hide ActiveOk, Stoppable;
    forall j | 0 <= j < |seqs| ensures Stoppable(w, b, seqs[j]) {
      ActiveIsStoppable(w, b, seqs[j]);
    }
  }

  /** What the engine keeps while the sequences `new_` are taken but do not run yet. */
  ghost predicate Queued(w: World, b: Books, arrivals: seq<Request>, flagged: set<nat>,
                         active: seq<Sequence>, new_: seq<Sequence>, waiting: seq<Sequence>)
  {
    && Consistent(w, b, arrivals, flagged, active + new_ + waiting)
    && AllActive(w, b, active) && AllWaiting(w, b, new_) && AllWaiting(w, b, waiting)
  }

  lemma QueuedParts(w: World, b: Books, arrivals: seq<Request>, flagged: set<nat>,
                    active: seq<Sequence>, new_: seq<Sequence>, waiting: seq<Sequence>)
    requires Queued(w, b, arrivals, flagged, active, new_, waiting)
    ensures DistinctIds(active) && DistinctIds(new_) && DistinctIds(waiting) && DistinctIds(active + new_)
    ensures forall s :: s in active ==> s.id !in Ids(new_) && s.id !in Ids(waiting)
    ensures forall s :: s in new_ ==> s.id !in Ids(active) && s.id !in Ids(waiting)
    ensures forall s :: s in waiting ==> s.id !in Ids(active) && s.id !in Ids(new_) && s.id !in Ids(active + new_)
  {
    hide Answered, Known, ActiveOk, WaitingOk;
    OrderedParts(active + new_, waiting);
    OrderedParts(active, new_);
  }

  lemma OutsideFewer(b: Books, b': Books, ids: set<nat>, cancelled: set<nat>)
    requires Outside(b, b', ids * cancelled)
    ensures Outside(b, b', ids) && Outside(b, b', cancelled)
  {
    hide Agree;
  }

  /** Sweeping the waiting sequences. */
  lemma SweepWaitingKeeps(w: World, b: Books, b': Books, arrivals: seq<Request>, flagged: set<nat>,
                          active: seq<Sequence>, waiting: seq<Sequence>, swept: seq<Sequence>, cancelled: set<nat>)
    requires Queued(w, b, arrivals, flagged, active, [], waiting) && cancelled <= flagged
    requires Outside(b, b', Ids(waiting) * cancelled) && Swept(w, b', waiting, swept, cancelled, |waiting|)
    ensures Queued(w, b', arrivals, flagged, active, [], Unfinished(swept))
  {
    hide *;
    QueuedParts(w, b, arrivals, flagged, active, [], waiting);
    OutsideFewer(b, b', Ids(waiting), cancelled);
    SweptOutcomes(w, b', flagged, waiting, swept, cancelled);
    QueueFields(w, b, arrivals, flagged, active, [], waiting);
    assert active + [] + waiting == active + [] + waiting + [];
    DropFinished(w, b, b', arrivals, flagged, active + [], waiting, swept, []);
    assert active + [] + Unfinished(swept) + [] == active + [] + Unfinished(swept);
    OthersKeepActive(w, b, b', Ids(waiting), active);
    SurvivorsKeepWaiting(w, b, b', cancelled, waiting, Unfinished(swept));
    QueueFromFields(w, b', arrivals, flagged, active, [], Unfinished(swept));
  }

  lemma QueueFields(w: World, b: Books, arrivals: seq<Request>, flagged: set<nat>,
                    active: seq<Sequence>, new_: seq<Sequence>, waiting: seq<Sequence>)
    requires Queued(w, b, arrivals, flagged, active, new_, waiting)
    ensures Consistent(w, b, arrivals, flagged, active + new_ + waiting)
    ensures AllActive(w, b, active) && AllWaiting(w, b, new_) && AllWaiting(w, b, waiting) && AllWaiting(w, b, [])
  {
  }

  lemma QueueFromFields(w: World, b: Books, arrivals: seq<Request>, flagged: set<nat>,
                        active: seq<Sequence>, new_: seq<Sequence>, waiting: seq<Sequence>)
    requires Consistent(w, b, arrivals, flagged, active + new_ + waiting)
    requires AllActive(w, b, active) && (AllWaiting(w, b, new_) || new_ == []) && AllWaiting(w, b, waiting)
    ensures Queued(w, b, arrivals, flagged, active, new_, waiting)
  {
  }

  lemma SurvivorsKeepWaiting(w: World, b: Books, b': Books, cancelled: set<nat>, waiting: seq<Sequence>, left: seq<Sequence>)
    requires AllWaiting(w, b, waiting) && Outside(b, b', cancelled)
    requires forall s :: s in left ==> s in waiting && s.id !in cancelled
    ensures AllWaiting(w, b', left)
  {
    hide WaitingOk, Agree;
    forall j | 0 <= j < |left| ensures WaitingOk(w, b', left[j]) {
      assert left[j] in left;
      var k :| 0 <= k < |waiting| && waiting[k] == left[j];
      assert Agree(b, b', left[j].id);
      AgreeKeepsWaiting(w, b, b', left[j]);
    }
  }

  lemma SurvivorsKeepActive(w: World, b: Books, b': Books, cancelled: set<nat>, active: seq<Sequence>, left: seq<Sequence>)
    requires AllActive(w, b, active) && Outside(b, b', cancelled)
    requires forall s :: s in left ==> s in active && s.id !in cancelled
    ensures AllActive(w, b', left)
  {
    hide ActiveOk, Agree;
    forall j | 0 <= j < |left| ensures ActiveOk(w, b', left[j]) {
      assert left[j] in left;
      var k :| 0 <= k < |active| && active[k] == left[j];
      assert Agree(b, b', left[j].id);
      AgreeKeepsActive(w, b, b', left[j]);
    }
  }

  /** Sweeping the running sequences. */
  lemma SweepActiveKeeps(w: World, b: Books, b': Books, arrivals: seq<Request>, flagged: set<nat>, active: seq<Sequence>,
                         new_: seq<Sequence>, waiting: seq<Sequence>, swept: seq<Sequence>, cancelled: set<nat>)
    requires Queued(w, b, arrivals, flagged, active, new_, waiting) && cancelled <= flagged
    requires Outside(b, b', Ids(active) * cancelled) && Swept(w, b', active, swept, cancelled, |active|)
    ensures Queued(w, b', arrivals, flagged, Unfinished(swept), new_, waiting)
  {
    hide *;
    QueuedParts(w, b, arrivals, flagged, active, new_, waiting);
    OutsideFewer(b, b', Ids(active), cancelled);
    SweptOutcomes(w, b', flagged, active, swept, cancelled);
    QueueFields(w, b, arrivals, flagged, active, new_, waiting);
    assert active + new_ + waiting == [] + active + (new_ + waiting);
    DropFinished(w, b, b', arrivals, flagged, [], active, swept, new_ + waiting);
    assert [] + Unfinished(swept) + (new_ + waiting) == Unfinished(swept) + new_ + waiting;
    OthersKeepWaiting(w, b, b', Ids(active), new_);
    OthersKeepWaiting(w, b, b', Ids(active), waiting);
    SurvivorsKeepActive(w, b, b', cancelled, active, Unfinished(swept));
    QueueFromFields(w, b', arrivals, flagged, Unfinished(swept), new_, waiting);
  }

  lemma WorkOfQueued(w: World, b: Books, active: seq<Sequence>, new_: seq<Sequence>)
    requires AllActive(w, b, active) && AllWaiting(w, b, new_)
    ensures forall j :: 0 <= j < |active + new_| ==> Work((active + new_)[j]) >= 1 && !(active + new_)[j].gen.finished
  {
    hide Mine, CacheOk, PrefixOk, Running;
    forall j | 0 <= j < |active + new_| ensures Work((active + new_)[j]) >= 1 && !(active + new_)[j].gen.finished {
      if j < |active| {
        assert ActiveOk(w, b, active[j]);
        RunningWorks(w, active[j].gen);
      } else {
        assert WaitingOk(w, b, new_[j - |active|]);
      }
    }
  }

  lemma WorkOfWaiting(w: World, b: Books, seqs: seq<Sequence>)
    requires AllWaiting(w, b, seqs)
    ensures forall j :: 0 <= j < |seqs| ==> Work(seqs[j]) >= 1
  {
    hide WaitingOk, Work;
    WorkOfQueued(w, b, [], seqs);
    assert [] + seqs == seqs;
  }

  /** Prefill and decode of the whole batch: everyone in it is one step further. */
  lemma BatchKeeps(w: World, b: Books, b1: Books, b2: Books, arrivals: seq<Request>, flagged: set<nat>, active: seq<Sequence>,
                   new_: seq<Sequence>, waiting: seq<Sequence>, mid: seq<Sequence>, done: seq<Sequence>)
    requires Queued(w, b, arrivals, flagged, active, new_, waiting) && |mid| == |active| + |new_| && mid[..|active|] == active
    requires forall j :: 0 <= j < |new_| ==> Advanced(w, b1, new_[j], mid[|active| + j])
    requires Decoding(w, b2, mid, done, Decodable(mid, |mid|)) && Outside(b, b2, Ids(active + new_))
    ensures Queued(w, b2, arrivals, flagged, Unfinished(done), [], waiting)
    ensures TotalWork(Unfinished(done)) + |active + new_| <= TotalWork(active + new_)
    ensures |Unfinished(done)| <= |active + new_| && TotalCost(Unfinished(done)) <= TotalCost(active + new_)
    ensures forall size: Pos :: TotalBlocks(Unfinished(done), size) <= TotalBlocks(active + new_, size)
  {
    hide *;
    var p := active + new_;
    QueuedParts(w, b, arrivals, flagged, active, new_, waiting);
    QueueFields(w, b, arrivals, flagged, active, new_, waiting);
    BatchOutcomes(w, b, b1, b2, flagged, active, new_, mid, done);
    assert active + new_ + waiting == [] + p + waiting;
    DropFinished(w, b, b2, arrivals, flagged, [], p, done, waiting);
    assert [] + Unfinished(done) + waiting == Unfinished(done) + [] + waiting;
    OthersKeepWaiting(w, b, b2, Ids(p), waiting);
    QueueFromFields(w, b2, arrivals, flagged, Unfinished(done), [], waiting);
  }

  lemma BatchOutcomes(w: World, b: Books, b1: Books, b2: Books, flagged: set<nat>,
                      active: seq<Sequence>, new_: seq<Sequence>, mid: seq<Sequence>, done: seq<Sequence>)
    requires AllActive(w, b, active) && AllWaiting(w, b, new_) && |mid| == |active| + |new_| && mid[..|active|] == active
    requires forall j :: 0 <= j < |new_| ==> Advanced(w, b1, new_[j], mid[|active| + j])
    requires Decoding(w, b2, mid, done, Decodable(mid, |mid|))
    ensures |done| == |active + new_| && forall j :: 0 <= j < |done| ==> Outcome(w, b2, flagged, (active + new_)[j], done[j])
    ensures AllActive(w, b2, Unfinished(done))
    ensures TotalWork(Unfinished(done)) + |active + new_| <= TotalWork(active + new_)
    ensures TotalCost(Unfinished(done)) <= TotalCost(active + new_)
    ensures forall size: Pos :: TotalBlocks(Unfinished(done), size) <= TotalBlocks(active + new_, size)
  {
    hide *;
    var p := active + new_;
    WorkOfQueued(w, b, active, new_);
    assert p[..|active|] == active;
    forall j | |active| <= j < |p| ensures Advanced(w, b1, p[j], mid[j]) {
      assert p[j] == new_[j - |active|];
    }
    BatchedByBoth(w, b1, b2, p, mid, done, |active|);
    BatchedOutcomes(w, b2, flagged, p, done);
  }

  /** After prefill the whole batch can take part in a decode step. */
  lemma BatchCanDecode(w: World, b: Books, b': Books, active: seq<Sequence>, new_: seq<Sequence>, done: seq<Sequence>, mid: seq<Sequence>)
    requires AllActive(w, b, active) && DistinctIds(active + new_) && forall s :: s in active ==> s.id !in Ids(new_)
    requires Outside(b, b', Ids(new_)) && |done| == |new_| && mid == active + done
    requires forall j :: 0 <= j < |new_| ==> Advanced(w, b', new_[j], done[j])
    ensures Decoding(w, b', mid, mid, []) && Ids(mid) == Ids(active + new_) && Ids(new_) <= Ids(mid)
    ensures mid[..|active|] == active && forall j :: 0 <= j < |new_| ==> Advanced(w, b', new_[j], mid[|active| + j])
  {
    hide Settled, Advanced, Ids, Agree, AllActive, Outside;
    OthersKeepActive(w, b, b', Ids(new_), active);
    var p := active + new_;
    forall j | 0 <= j < |mid| ensures Settled(w, b', mid[j]) && mid[j].id == p[j].id {
      BatchElement(w, b', active, new_, done, j);
    }
    forall j, k | 0 <= j < k < |mid| ensures mid[j].id != mid[k].id {
      assert p[j].id != p[k].id;
    }
    SameIds(p, mid);
    forall id | id in Ids(new_) ensures id in Ids(p) {
      var j :| 0 <= j < |new_| && new_[j].id == id;
      assert p[|active| + j].id == id;
    }
  }

  lemma BatchElement(w: World, b: Books, active: seq<Sequence>, new_: seq<Sequence>, done: seq<Sequence>, j: nat)
    requires AllActive(w, b, active) && |done| == |new_| && j < |active + done|
    requires forall k :: 0 <= k < |new_| ==> Advanced(w, b, new_[k], done[k])
    ensures Settled(w, b, (active + done)[j]) && (active + done)[j].id == (active + new_)[j].id
  {
    hide Mine, CacheOk, DoneOk, Reference;
    if j >= |active| {
      assert Advanced(w, b, new_[j - |active|], done[j - |active|]);
    } else {
      assert ActiveOk(w, b, active[j]);
    }
  }

  lemma SameIds(p: seq<Sequence>, q: seq<Sequence>)
    requires |p| == |q| && forall j :: 0 <= j < |p| ==> q[j].id == p[j].id
    ensures Ids(p) == Ids(q)
  {
    hide Ids;
    forall id | id in Ids(p) ensures id in Ids(q) {
      var j :| 0 <= j < |p| && p[j].id == id;
      assert q[j].id == id;
    }
    forall id | id in Ids(q) ensures id in Ids(p) {
      var j :| 0 <= j < |q| && q[j].id == id;
      assert p[j].id == id;
    }
  }

  /** Fewer and cheaper sequences stay within the budget. */
  lemma BudgetShrinks(before: seq<Sequence>, after: seq<Sequence>, extra: seq<Sequence>, size: int, tokens: int)
    requires WithinBudget(before + extra, size, tokens)
    requires |after| <= |before| && TotalCost(after) <= TotalCost(before)
    ensures WithinBudget(after + extra, size, tokens)
  {
    TotalCostAppend(before, extra);
    TotalCostAppend(after, extra);
  }

  lemma NewCanPrefill(w: World, b: Books, new_: seq<Sequence>)
    requires AllWaiting(w, b, new_) && DistinctIds(new_)
    ensures Prefilling(w, b, new_, new_, 0, [])
  {
    hide WaitingOk, Advanced;
    forall j: nat | j < |new_| ensures !Handled(new_, 0, [], j) && WaitingOk(w, b, new_[j]) {
    }
  }

  /** A request that was matched and joins the queue. */
  lemma JoinKeeps(w: World, b: Books, b': Books, arrivals: seq<Request>, flagged: set<nat>,
                  active: seq<Sequence>, waiting: seq<Sequence>, s: Sequence)
    requires Queued(w, b, arrivals, flagged, active, [], waiting) && s.id == |arrivals| && Outside(b, b', {s.id})
    requires b'.outcome == b.outcome && b'.lost == b.lost
    requires forall i :: i in b'.owner ==> b'.owner[i] == s.id || (i in b.owner && b'.owner[i] == b.owner[i])
    requires WaitingOk(w, b', s)
    ensures Queued(w, b', arrivals + [s.gen.request], flagged, active, [], waiting + [s])
  {
    hide *;
    QueueFields(w, b, arrivals, flagged, active, [], waiting);
    Arrive(w, b, b', arrivals, flagged, active + [] + waiting, s);
    assert active + [] + waiting + [s] == active + [] + (waiting + [s]);
    NumbersBelow(w, b, arrivals, flagged, active, waiting);
    OthersKeepActive(w, b, b', {s.id}, active);
    OthersKeepWaiting(w, b, b', {s.id}, waiting);
    JoinWaiting(w, b', waiting, s);
    QueueFromFields(w, b', arrivals + [s.gen.request], flagged, active, [], waiting + [s]);
  }

  lemma NumbersBelow(w: World, b: Books, arrivals: seq<Request>, flagged: set<nat>, active: seq<Sequence>, waiting: seq<Sequence>)
    requires Queued(w, b, arrivals, flagged, active, [], waiting)
    ensures forall s :: s in active || s in waiting ==> s.id < |arrivals|
    ensures forall i :: i in b.owner ==> b.owner[i] < |arrivals|
    ensures forall id :: id in b.outcome || id in b.lost ==> id < |arrivals|
  {
    hide WaitingOk, ActiveOk, Reference;
    var q := active + [] + waiting;
    forall s | s in active || s in waiting ensures s.id < |arrivals| {
      assert s in q;
      var j :| 0 <= j < |q| && q[j] == s;
      assert Known(arrivals, q[j]);
    }
  }

  lemma JoinWaiting(w: World, b: Books, waiting: seq<Sequence>, s: Sequence)
    requires AllWaiting(w, b, waiting) && WaitingOk(w, b, s)
    ensures AllWaiting(w, b, waiting + [s])
  {
    hide WaitingOk;
  }

  /** An empty queue means that every request not lost was answered, and that only lost ones hold
      anything. */
  lemma EmptyQueue(w: World, b: Books, arrivals: seq<Request>, flagged: set<nat>)
    requires Queued(w, b, arrivals, flagged, [], [], []) && Tidy(w, b)
    ensures forall i :: i in b.owner ==> b.owner[i] in b.lost
    ensures forall id: nat :: id < |arrivals| && id !in b.lost ==>
      id in b.outcome && Answered(w, arrivals, flagged, id, b.outcome[id]) && OutcomeOk(w, b.outcome[id])
  {
    hide Answered, OutcomeOk;
    var q: seq<Sequence> := [] + [] + [];
    forall id: nat | id < |arrivals| && id !in b.lost ensures id in b.outcome {
      assert id in b.outcome || id in Ids(q);
    }
  }

  lemma NoneLeft(left: seq<Sequence>, before: seq<Sequence>, ids: set<nat>)
    requires (forall s :: s in left ==> s in before && s.id !in ids) && Ids(before) <= ids
    ensures left == []
  {
    HasElement(left);
  }

  lemma HasElement(seqs: seq<Sequence>)
    ensures seqs != [] ==> exists s :: s in seqs
  {
    if seqs != [] {
      assert seqs[0] in seqs;
    }
  }
}
