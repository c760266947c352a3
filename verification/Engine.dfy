/** The continuous batching engine: admission, prefill, decode steps, cancellation sweeps. */
module Engines {
  import opened Wrappers
  import opened Transformer
  import opened PrefixIndex
  import opened PoolCapacity
  import opened PagedRuns
  import opened PrefixNames
  import opened ToolCalls
  import opened Generations
  import opened CacheBackends
  import opened EngineStates
  import opened EngineQueues
  import MC = ModelCalls
  import PrefixCaches
  import PrefixReuse

  /** What happens before and during one pass of the loop: the requests that arrive, the cancel
      flags that the sweep of the queue sees, and those set between that sweep and the next look. */
  datatype Turn = Turn(arriving: seq<Request>, cancelled: set<nat>, late: set<nat>)

  function Submitted(script: seq<Turn>): seq<Request> {
    if script == [] then [] else Submitted(script[..|script| - 1]) + script[|script| - 1].arriving
  }

  lemma SubmittedSoFar(script: seq<Turn>, k: nat)
    requires k <= |script|
    ensures Submitted(script[..0]) == []
    ensures k < |script| ==> Submitted(script[..k + 1]) == Submitted(script[..k]) + script[k].arriving
  {
    if k < |script| {
      assert script[..k + 1][..k] == script[..k];
    }
  }

  /** The flags set during some pass. */
  function LateFlags(script: seq<Turn>): set<nat> {
    if script == [] then {} else LateFlags(script[..|script| - 1]) + script[|script| - 1].late
  }

  lemma {:induction false} LateOfTurn(script: seq<Turn>, n: nat)
    ensures n < |script| ==> script[n].late <= LateFlags(script)
  {
    if n < |script| - 1 {
      LateOfTurn(script[..|script| - 1], n);
    }
  }

  lemma NoRequestBlocks(size: Pos)
    ensures RequestBlocks([], size) == 0
  {
  }

  lemma {:induction false} SubmittedGrows(script: seq<Turn>, k: nat, size: Pos)
    requires k <= |script|
    ensures RequestBlocks(Submitted(script[..k]), size) <= RequestBlocks(Submitted(script), size)
  {
    hide RequestBlocks;
    if k < |script| {
      var n := |script| - 1;
      SubmittedGrows(script[..n], k, size);
      assert script[..n][..k] == script[..k];
      RequestBlocksAppend(Submitted(script[..n]), script[n].arriving, size);
    } else {
      assert script[..k] == script;
    }
  }

  ghost predicate NoneEmpty(rs: seq<Request>) {
    forall i :: 0 <= i < |rs| ==> rs[i].prompt != []
  }

  class Engine {
    const w: World
    const maxBatchSize: int
    const maxBatchTokens: int
    const backend: Backend
    var waiting: seq<Sequence>
    var active: seq<Sequence>
    ghost var owner: map<nat, nat>
    ghost var outcome: map<nat, Generation>
    /** Arrivals are numbered; the number stands for the identity of the sequence object. */
    var arrivals: seq<Request>
    ghost var flagged: set<nat>
    /** Requests dropped after they were taken, without an answer. */
    ghost var lost: set<nat>

    constructor (w: World, maxBatchSize: int, maxBatchTokens: int, backend: Backend)
      requires backend.Valid() && backend.depth == w.depth && backend.live == {}
      ensures Valid() && waiting == [] && active == [] && arrivals == [] && this.w == w && this.backend == backend
      ensures this.maxBatchSize == maxBatchSize && this.maxBatchTokens == maxBatchTokens
    {
      hide Backend.Valid, OutcomeOk, Answered, Known, TotalCost;
      this.w, this.maxBatchSize, this.maxBatchTokens, this.backend := w, maxBatchSize, maxBatchTokens, backend;
      waiting, active, owner, outcome, arrivals, flagged, lost := [], [], map[], map[], [], {}, {};
    }

    ghost function Now(): (b: Books)
      reads this`owner, this`outcome, this`arrivals, this`lost, backend
      ensures b.lists == backend.Lists() && b.owner == owner && b.outcome == outcome && b.costs == Costs(arrivals)
      ensures b.lost == lost && b.names == backend.names
    {
      Books(backend.Lists(), owner, outcome, Costs(arrivals), lost, backend.names)
    }

    /** The backend is consistent, every live list has an owner who can pay for it, every answer
        is right. */
    ghost predicate Base()
      reads this`owner, this`outcome, this`arrivals, this`lost, backend, backend.copies
    {
      backend.Valid() && backend.depth == w.depth && owner.Keys == backend.live && Tidy(w, Now()) && Funded(Now())
    }

    /** What a failed write means: a paged pool with fewer blocks than the requests that hold
        caches, with those in `ids`, may come to store. */
    ghost predicate Starved(b: Books, ids: set<nat>) {
      backend.paged && Crowded(b, ids, backend.blockSize, backend.numBlocks)
    }

    lemma StarvedBefore(b: Books, b': Books, ids: set<nat>, more: set<nat>)
      requires Outside(b, b', more) && ids <= more && b'.costs == b.costs && Starved(b', ids)
      ensures Starved(b, more)
    {
      CrowdedBefore(b, b', ids, more, backend.blockSize, backend.numBlocks);
    }

    lemma BaseIsTidy()
      requires Base()
      ensures Tidy(w, Now())
    {
    }

    lemma NothingChanged(ids: set<nat>)
      requires Base()
      ensures Outside(Now(), Now(), ids)
    {
      OutsideSame(Now(), ids);
    }

    // -------------------------------------------------------- one sequence at a time

    /** Gives list `i` back. */
    method ReleaseList(i: nat, ghost id: nat)
      requires Base() && i in owner && owner[i] == id
      modifies this`owner, backend`system, backend`lists, backend`live, backend`names
      ensures Base() && outcome == old(outcome) && owner == old(owner) - {i} && Outside(old(Now()), Now(), {id})
      ensures backend.Index() == old(backend.Index())
    {
      hide Tidy, OutcomeOk, Funded, Outside, Backend.Valid;
      FundedIsBounded(Now());
      backend.Release(i);
      owner := owner - {i};
      TidyWithFewerOwners(w, old(Now()), Now());
      FundedWithFewerOwners(old(Now()), Now());
      OutsideWithoutOwner(old(Now()), Now(), i, id);
    }

    /** The first `n` tokens of `s` are in the prefix cache for later prompts. */
    ghost predicate Registered(s: Sequence, n: nat)
      reads backend, backend.copies
    {
      backend.Caching() ==> StoresBlocks(backend.Index(), s.gen.tokenIds, n, backend.Unit(), backend.Bound())
    }

    /** Registers the complete cache of `s`. */
    method RegisterCache(s: Sequence)
      requires Base() && Mine(Now(), s) && s.gen.request.prompt <= s.gen.tokenIds && s.cache.Some?
      requires CacheOk(w.depth, Now().lists, s.cache.value, s.gen.tokenIds, Filled(Now(), s.cache.value))
      modifies backend`system, backend`names, backend.copies
      ensures Base() && Outside(old(Now()), Now(), {s.id}) && Registered(s, old(Filled(Now(), s.cache.value)))
    {
      hide Tidy, CacheOk, ContentsTrue, ListKnown, Outside, Funded, RequestCost, StoresBlocks, Backend.Valid;
      var i := s.cache.value;
      TokenIdsAreValid(s.gen.tokenIds);
      CacheLength(w.depth, Now().lists, i, s.gen.tokenIds, Filled(Now(), i));
      CacheStaysOk(w.depth, Now().lists, i, s.gen.tokenIds, Filled(Now(), i), []);
      assert s.gen.tokenIds + [] == s.gen.tokenIds;
      backend.LiveHasNames();
      backend.Insert(s.gen.tokenIds, i);
      InsertedIsOutside(old(Now()), Now(), i, s.id);
      TidyWithFewerOwners(w, old(Now()), Now());
      FundedWithAnswer(old(Now()), Now());
    }

    /** Gives back what `s` holds; a complete cache is registered first. */
    method GiveUp(s: Sequence)
      requires Base() && Mine(Now(), s) && s.gen.request.prompt <= s.gen.tokenIds
      requires s.cache.Some? ==> CacheOk(w.depth, Now().lists, s.cache.value, s.gen.tokenIds, Filled(Now(), s.cache.value))
      modifies this`owner, backend`system, backend`lists, backend`live, backend`names, backend.copies
      ensures Base() && outcome == old(outcome) && Outside(old(Now()), Now(), {s.id})
      ensures forall i :: i in owner ==> owner[i] != s.id
      ensures s.cache.Some? ==> Registered(s, old(Filled(Now(), s.cache.value)))
    {
      hide Base, CacheOk, Outside, RequestCost, StoresBlocks, Backend.Valid;
      NothingChanged({s.id});
      if s.cache.Some? {
        RegisterCache(s);
        label registered:
        ReleaseList(s.cache.value, s.id);
        OutsideTransitive(old(Now()), old@registered(Now()), Now(), {s.id});
      } else if s.prefix.Blocks? {
        ReleaseList(s.prefix.owner, s.id);
      }
    }

    /** `_finish`: gives back what is held and sends the last events. */
    method FinishSeq(s: Sequence, reason: Reason, flush: bool) returns (s': Sequence)
      requires Base() && Mine(Now(), s) && !s.gen.finished && s.id !in outcome
      requires s.cache.Some? ==> CacheOk(w.depth, Now().lists, s.cache.value, s.gen.tokenIds, Filled(Now(), s.cache.value))
      requires OutcomeOk(w, Finish(w, s.gen, reason, flush))
      modifies this`owner, this`outcome, backend`system, backend`lists, backend`live, backend`names, backend.copies
      ensures Base() && Outside(old(Now()), Now(), {s.id})
      ensures s'.id == s.id && s'.gen == Finish(w, s.gen, reason, flush) && DoneOk(w, Now(), s') && Concluded(w, s'.gen)
      ensures s.cache.Some? ==> Registered(s, old(Filled(Now(), s.cache.value)))
    {
      hide Finish, OutcomeOk, Tidy, Funded, Outside, Concluded, CacheOk, Mine, DoneOk, StoresBlocks, Backend.Valid;
      AnswerConcludes(w, Finish(w, s.gen, reason, flush));
      FinishFinishes(w, s.gen, reason, flush);
      AnswerHasPrompt(w, Finish(w, s.gen, reason, flush));
      GiveUp(s);
      label released:
      s' := s.(prefix := if s.prefix.Blocks? then NoPrefix else s.prefix, cache := None, gen := Finish(w, s.gen, reason, flush));
      outcome := outcome[s.id := s'.gen];
      TidyWithAnswer(w, old@released(Now()), Now(), s.id, s'.gen);
      OutsideWithAnswer(old@released(Now()), Now(), s.id);
      FundedWithAnswer(old@released(Now()), Now());
      OutsideTransitive(old(Now()), old@released(Now()), Now(), {s.id});
      NowDone(w, old(Now()), Now(), s, s');
    }

    /** What `_emit_or_finish` may be called on: a correct cache of all tokens so far. */
    ghost predicate Deliverable(s: Sequence, tid: TokenId)
      reads this`owner, this`outcome, this`arrivals, this`lost, backend
    {
      && Mine(Now(), s) && s.id !in outcome && Running(w, s.gen) && !s.prefix.Blocks? && s.cache.Some?
      && CacheOk(w.depth, Now().lists, s.cache.value, s.gen.tokenIds, |s.gen.tokenIds|)
      && s.gen.request.params.maxTokens > 0 && s.gen.tokenIds != []
      && tid == Sample(w, FullLogits(w.depth, s.gen.tokenIds), s.gen.request.params)
    }

    /** `_emit_or_finish`. */
    method Deliver(s: Sequence, tid: TokenId) returns (s': Sequence)
      requires Base() && Deliverable(s, tid)
      modifies this`owner, this`outcome, backend`system, backend`lists, backend`live, backend`names, backend.copies
      ensures Base() && Outside(old(Now()), Now(), {s.id}) && s'.id == s.id && s'.gen.request == s.gen.request
      ensures s'.gen == EmitOrFinish(w, s.gen, tid) && (if s'.gen.finished then DoneOk(w, Now(), s') else ActiveOk(w, Now(), s'))
    {
      hide Base, Mine, Tidy, OutcomeOk, CacheOk, Agree, Finish, Sample, FullLogits, Naive, Hit, Find, Stream, Chunk, EmitText;
      StepIsNaive(w, s.gen, tid);
      CacheLength(w.depth, Now().lists, s.cache.value, s.gen.tokenIds, |s.gen.tokenIds|);
      if tid in s.gen.request.stopIds {
        FinishFinishes(w, s.gen, EndTurn, true);
        s' := FinishSeq(s, EndTurn, true);
        return;
      }
      var g := Received(w, s.gen, tid);
      CacheStaysOk(w.depth, Now().lists, s.cache.value, s.gen.tokenIds, |s.gen.tokenIds|, [tid]);
      var hit := Hit(g.request.stopSequences, g.text);
      if hit.Some? {
        var cut := Find(g.text, hit.value).value;
        EmitTextKeepsTokens(g, cut);
        FinishFinishes(w, EmitText(g, cut), EndTurn, false);
        StillMine(Now(), s, s.(gen := EmitText(g, cut)));
        s' := FinishSeq(s.(gen := EmitText(g, cut)), EndTurn, false);
        return;
      }
      StreamKeepsTokens(g);
      g := Stream(g);
      if g.generated >= g.request.params.maxTokens {
        FinishFinishes(w, g, MaxTokens, true);
        StillMine(Now(), s, s.(gen := g));
        s' := FinishSeq(s.(gen := g), MaxTokens, true);
        return;
      }
      s' := s.(gen := g, pending := Some(tid));
      StillMine(Now(), s, s');
      NothingChanged({s.id});
    }

    /** A fresh cache for `s`. */
    method OpenCache(s: Sequence) returns (s': Sequence)
      requires Base() && Mine(Now(), s) && Holding(s) == None && s.id !in outcome
      modifies this`owner, backend`system, backend`lists, backend`live, backend`names
      ensures Base() && outcome == old(outcome) && Outside(old(Now()), Now(), {s.id})
      ensures s'.cache.Some? && s' == s.(cache := s'.cache) && Mine(Now(), s')
      ensures CacheOk(w.depth, Now().lists, s'.cache.value, s.gen.tokenIds, 0)
    {
      hide Tidy, ContentsTrue, Funded, Outside, RequestCost, Backend.Valid;
      var i := backend.NewCache();
      owner := owner[i := s.id];
      s' := s.(cache := Some(i));
      TidyWithNewOwner(w, old(Now()), Now(), i, s.id);
      FundedWithNewOwner(old(Now()), Now(), i, s.id);
      OutsideWithNewOwner(old(Now()), Now(), i, s.id);
      EmptyIsTrue(s.gen.tokenIds, w.depth);
    }

    lemma EmptyIsTrue(ids: seq<int>, depth: nat)
      ensures ContentsTrue([], ids, depth)
    {
    }

    /** What `Fill` needs: a cache correct for the first `n` tokens and the columns of the rest. */
    ghost predicate Fillable(s: Sequence, n: nat, cols: seq<seq<KV>>, tid: TokenId)
      reads this`owner, this`outcome, this`arrivals, this`lost, backend
    {
      && Mine(Now(), s) && s.id !in outcome && Running(w, s.gen) && !s.prefix.Blocks? && s.cache.Some?
      && CacheOk(w.depth, Now().lists, s.cache.value, s.gen.tokenIds, n)
      && cols == MC.TruthColumns(s.gen.tokenIds, n, |s.gen.tokenIds|, w.depth)
      && s.gen.request.params.maxTokens > 0 && s.gen.tokenIds != []
      && tid == Sample(w, FullLogits(w.depth, s.gen.tokenIds), s.gen.request.params)
    }

    /** Writes the remaining columns into the cache. */
    method Store(s: Sequence, n: nat, cols: seq<seq<KV>>, tid: TokenId) returns (ok: bool)
      requires Base() && n <= |s.gen.tokenIds| && Fillable(s, n, cols, tid)
      modifies backend`system, backend`lists
      ensures ok ==> Base() && Outside(old(Now()), Now(), {s.id}) && Deliverable(s, tid)
      ensures !ok ==> Starved(old(Now()), {s.id})
    {
      hide Tidy, ContentsTrue, Running, Sample, FullLogits, Funded, Footprint, Outside, Crowded, CacheOk, Mine, RequestCost;
      hide MC.TruthColumns, Backend.Valid;
      var i := s.cache.value;
      CacheLength(w.depth, Now().lists, i, s.gen.tokenIds, n);
      ghost var more := Now().(lists := Now().lists[i := Now().lists[i] + cols]);
      StoredMore(w, Now(), more, s, n, cols);
      backend.ReleasedAreEmpty();
      ok := backend.Extend(i, cols);
      if ok {
        TidyWithFewerOwners(w, old(Now()), Now());
        assert Now() == more;
      } else {
        FullIsCrowded(more, {s.id}, backend.blockSize, backend.numBlocks);
        SameOwnersCrowded(more, old(Now()), {s.id}, backend.blockSize, backend.numBlocks);
      }
    }

    /** Writes the remaining columns into the cache, then delivers the sampled token. */
    method Fill(s: Sequence, n: nat, cols: seq<seq<KV>>, tid: TokenId) returns (ok: bool, s': Sequence)
      requires Base() && n <= |s.gen.tokenIds| && Fillable(s, n, cols, tid)
      modifies this`owner, this`outcome, backend`system, backend`lists, backend`live, backend`names, backend.copies
      ensures ok ==> Base() && Outside(old(Now()), Now(), {s.id}) && s'.id == s.id && s'.gen == EmitOrFinish(w, s.gen, tid)
      ensures ok ==> if s'.gen.finished then DoneOk(w, Now(), s') else ActiveOk(w, Now(), s')
      ensures !ok ==> Starved(old(Now()), {s.id})
    {
      hide *;
      s' := s;
      ok := Store(s, n, cols, tid);
      if ok {
        label stored:
        s' := Deliver(s, tid);
        OutsideTransitive(old(Now()), old@stored(Now()), Now(), {s.id});
      }
    }

    // --------------------------------------------------------------------- prefill

    /** Requests with nothing to generate end at once. */
    method PrefillNothing(start: seq<Sequence>) returns (seqs: seq<Sequence>)
      requires Base() && Prefilling(w, Now(), start, start, 0, [])
      modifies this`owner, this`outcome, backend`system, backend`lists, backend`live, backend`names, backend.copies
      ensures Base() && Outside(old(Now()), Now(), Ids(start)) && Prefilling(w, Now(), start, seqs, 1, [])
    {
      hide Base, Prefilling, OutcomeOk, Outside, Select;
      seqs := start;
      var sel := Select(start, 0, |start|);
      NothingChanged(Ids(start));
      for i := 0 to |sel|
        invariant Base() && Outside(old(Now()), Now(), Ids(start)) && Prefilling(w, Now(), start, seqs, 0, sel[..i])
      {
        NextSelected(w, Now(), start, seqs, 0, sel, i);
        var s := seqs[sel[i]];
        NothingToGenerate(w, s.gen.request);
        label before:
        var s' := FinishSeq(s, MaxTokens, true);
        PrefillingNext(w, old@before(Now()), Now(), start, seqs, 0, sel[..i], sel[i], s');
        OutsideStep(old(Now()), old@before(Now()), Now(), s.id, Ids(start));
        seqs := seqs[sel[i] := s'];
      }
      assert sel[..|sel|] == sel;
      NextKind(w, Now(), start, seqs, 0);
    }

    /** Samples one row of a call's logits. */
    method SampleLast(logits: seq<Logits>, params: Params) returns (tid: TokenId)
      requires logits != []
      ensures tid == Sample(w, logits[|logits| - 1], params)
    {
      tid := Sample(w, logits[|logits| - 1], params);
    }

    /** Stores a row of a prefill batch in a fresh cache and delivers its first token. */
    method StorePlain(s: Sequence, b: nat, pad: nat, logits: seq<seq<Logits>>, kv: seq<seq<seq<KV>>>) returns (ok: bool, s': Sequence)
      requires Base() && WaitingOk(w, Now(), s) && Kind(s) == 1
      requires MC.RowIsFullPass(w.depth, s.gen.request.prompt, pad, b, logits, kv)
      modifies this`owner, this`outcome, backend`system, backend`lists, backend`live, backend`names, backend.copies
      ensures ok ==> Base() && Outside(old(Now()), Now(), {s.id}) && Advanced(w, Now(), s, s')
      ensures !ok ==> Starved(old(Now()), {s.id})
    {
      hide Base, Outside, OutcomeOk, Mine, MC.LayerIsFullCache, Sample, FullLogits, EmitOrFinish, ActiveOk, DoneOk;
      var prompt := s.gen.request.prompt;
      StartRuns(w, s.gen.request);
      var s1 := OpenCache(s);
      label gotCache:
      var tid := SampleLast(logits[b], s.gen.request.params);
      var cols := MC.Extract(w.depth, prompt, pad, b, logits, kv, 0, |prompt|);
      ok, s' := Fill(s1, 0, cols, tid);
      if ok {
        OutsideTransitive(old(Now()), old@gotCache(Now()), Now(), {s.id});
        FilledIsAdvanced(w, Now(), s, s', tid);
      } else {
        StarvedBefore(old(Now()), old@gotCache(Now()), {s.id}, {s.id});
      }
    }

    /** Stores every row of a prefill batch. */
    method StoreBatch(start: seq<Sequence>, before: seq<Sequence>, sel: seq<nat>, width: nat, logits: seq<seq<Logits>>, kv: seq<seq<seq<KV>>>)
      returns (ok: bool, seqs: seq<Sequence>)
      requires Base() && Prefilling(w, Now(), start, before, 1, []) && sel == Select(start, 1, |start|)
      requires forall i :: 0 <= i < |sel| ==> RowOfBatch(w.depth, start, sel, i, width, logits, kv)
      modifies this`owner, this`outcome, backend`system, backend`lists, backend`live, backend`names, backend.copies
      ensures ok ==> Base() && Outside(old(Now()), Now(), Ids(start)) && Prefilling(w, Now(), start, seqs, 1, sel)
      ensures !ok ==> Starved(old(Now()), Ids(start))
    {
      hide Base, Prefilling, OutcomeOk, Outside, Select, WaitingOk, Advanced, MC.RowIsFullPass;
      ok, seqs := true, before;
      NothingChanged(Ids(start));
      for i := 0 to |sel|
        invariant ok && Base() && Outside(old(Now()), Now(), Ids(start)) && Prefilling(w, Now(), start, seqs, 1, sel[..i])
      {
        NextSelected(w, Now(), start, seqs, 1, sel, i);
        label before1:
        assert RowOfBatch(w.depth, start, sel, i, width, logits, kv);
        var s, s' := seqs[sel[i]], seqs[sel[i]];
        ok, s' := StorePlain(s, i, width - |s.gen.request.prompt|, logits, kv);
        if !ok {
          StarvedBefore(old(Now()), old@before1(Now()), {s.id}, Ids(start));
          return;
        }
        PrefillingNext(w, old@before1(Now()), Now(), start, seqs, 1, sel[..i], sel[i], s');
        OutsideStep(old(Now()), old@before1(Now()), Now(), s.id, Ids(start));
        seqs := seqs[sel[i] := s'];
      }
      assert sel[..|sel|] == sel;
    }

    /** All requests without a cached prefix in one left-padded batch. */
    method PrefillPlain(start: seq<Sequence>, before: seq<Sequence>) returns (ok: bool, seqs: seq<Sequence>)
      requires Base() && Prefilling(w, Now(), start, before, 1, [])
      modifies this`owner, this`outcome, backend`system, backend`lists, backend`live, backend`names, backend.copies
      ensures ok ==> Base() && Outside(old(Now()), Now(), Ids(start)) && Prefilling(w, Now(), start, seqs, 2, [])
      ensures !ok ==> Starved(old(Now()), Ids(start))
    {
      hide *;
      ok, seqs := true, before;
      var sel := Select(start, 1, |start|);
      NothingChanged(Ids(start));
      if sel != [] {
        SelectedPrompts(w, Now(), start, seqs, 1, sel);
        var prompts := Prompts(start, sel);
        var width, logits, kv := MC.Prefill(w.depth, prompts);
        BatchRows(w.depth, start, sel, prompts, width, logits, kv);
        ok, seqs := StoreBatch(start, seqs, sel, width, logits, kv);
      }
      if ok {
        NextKind(w, Now(), start, seqs, 1);
      }
    }

    /** The cached prefix of a request: its shared blocks adopted, or the copy of their K/V. */
    method AdoptPrefix(s: Sequence) returns (s': Sequence, n: nat, view: seq<seq<KV>>)
      requires Base() && WaitingOk(w, Now(), s) && s.prefixLen > 0
      modifies this`owner, backend`system, backend`lists, backend`live, backend`names
      ensures Base() && outcome == old(outcome) && Outside(old(Now()), Now(), {s.id})
      ensures Mine(Now(), s') && s'.id == s.id && s'.gen == s.gen && !s'.prefix.Blocks? && s'.cache.Some?
      ensures CacheOk(w.depth, Now().lists, s'.cache.value, s.gen.tokenIds, n)
      ensures s.prefixLen < |s.gen.request.prompt| && PrefixIsCache(view, s.gen.request.prompt, s.prefixLen, w.depth)
    {
      hide Tidy, OutcomeOk, Backend.Valid;
      match s.prefix
      case Blocks(i) =>
        n, s' := s.prefixLen, s.(cache := Some(i), prefix := NoPrefix);
        view := backend.View(i);
        MC.ViewOfTruth(Now().lists[i], s.gen.request.prompt, w.depth);
        NothingChanged({s.id});
      case Layers(kv) =>
        n, view := 0, kv;
        s' := OpenCache(s);
    }

    /** One request with a cached prefix, by itself: only the rest of its prompt is run. */
    method PrefillPrefix(s: Sequence) returns (ok: bool, s': Sequence)
      requires Base() && WaitingOk(w, Now(), s) && Kind(s) == 2
      modifies this`owner, this`outcome, backend`system, backend`lists, backend`live, backend`names, backend.copies
      ensures ok ==> Base() && Outside(old(Now()), Now(), {s.id}) && Advanced(w, Now(), s, s')
      ensures !ok ==> Starved(old(Now()), {s.id})
    {
      hide Base, Outside, OutcomeOk, Mine, MC.LayerIsFullCache, Sample, FullLogits, EmitOrFinish, ActiveOk, DoneOk, PrefixOk;
      var prompt := s.gen.request.prompt;
      StartRuns(w, s.gen.request);
      var s1, n, view := AdoptPrefix(s);
      label adopted:
      var logits, kv := MC.PrefillWithPrefix(w.depth, prompt, view, s.prefixLen);
      var tid := SampleLast(logits[0], s.gen.request.params);
      var cols := MC.Extract(w.depth, prompt, 0, 0, logits, kv, n, |prompt|);
      ok, s' := Fill(s1, n, cols, tid);
      if ok {
        OutsideTransitive(old(Now()), old@adopted(Now()), Now(), {s.id});
        FilledIsAdvanced(w, Now(), s, s', tid);
      } else {
        StarvedBefore(old(Now()), old@adopted(Now()), {s.id}, {s.id});
      }
    }

    method PrefillPrefixed(start: seq<Sequence>, before: seq<Sequence>) returns (ok: bool, seqs: seq<Sequence>)
      requires Base() && Prefilling(w, Now(), start, before, 2, [])
      modifies this`owner, this`outcome, backend`system, backend`lists, backend`live, backend`names, backend.copies
      ensures ok ==> Base() && Outside(old(Now()), Now(), Ids(start)) && Prefilling(w, Now(), start, seqs, 3, [])
      ensures !ok ==> Starved(old(Now()), Ids(start))
    {
      hide Base, Prefilling, OutcomeOk, Outside, Select, WaitingOk, Advanced;
      ok, seqs := true, before;
      var sel := Select(start, 2, |start|);
      NothingChanged(Ids(start));
      for i := 0 to |sel|
        invariant ok && Base() && Outside(old(Now()), Now(), Ids(start)) && Prefilling(w, Now(), start, seqs, 2, sel[..i])
      {
        NextSelected(w, Now(), start, seqs, 2, sel, i);
        label before1:
        var s, s' := seqs[sel[i]], seqs[sel[i]];
        ok, s' := PrefillPrefix(s);
        if !ok {
          StarvedBefore(old(Now()), old@before1(Now()), {s.id}, Ids(start));
          return;
        }
        PrefillingNext(w, old@before1(Now()), Now(), start, seqs, 2, sel[..i], sel[i], s');
        OutsideStep(old(Now()), old@before1(Now()), Now(), s.id, Ids(start));
        seqs := seqs[sel[i] := s'];
      }
      assert sel[..|sel|] == sel;
      NextKind(w, Now(), start, seqs, 2);
    }

    /** `_prefill`: every new sequence gets its first token or its answer. */
    method Prefill(start: seq<Sequence>) returns (ok: bool, seqs: seq<Sequence>)
      requires Base() && Prefilling(w, Now(), start, start, 0, [])
      modifies this`owner, this`outcome, backend`system, backend`lists, backend`live, backend`names, backend.copies
      ensures ok ==> Base() && Outside(old(Now()), Now(), Ids(start)) && |seqs| == |start|
      ensures ok ==> forall j :: 0 <= j < |start| ==> Advanced(w, Now(), start[j], seqs[j])
      ensures !ok ==> Starved(old(Now()), Ids(start))
    {
      hide Base, OutcomeOk, Outside, WaitingOk, Advanced;
      seqs := PrefillNothing(start);
      label finished:
      ok, seqs := PrefillPlain(start, seqs);
      if ok {
        OutsideTransitive(old(Now()), old@finished(Now()), Now(), Ids(start));
        label stored:
        ok, seqs := PrefillPrefixed(start, seqs);
        if ok {
          OutsideTransitive(old(Now()), old@stored(Now()), Now(), Ids(start));
          AllHandled(w, Now(), start, seqs);
        } else {
          StarvedBefore(old(Now()), old@stored(Now()), Ids(start), Ids(start));
        }
      } else {
        StarvedBefore(old(Now()), old@finished(Now()), Ids(start), Ids(start));
      }
    }

    // ----------------------------------------------------------------- decode step

    /** Collects what `build_decode` needs of the selected sequences. */
    method DecodeInputs(start: seq<Sequence>, sel: seq<nat>)
      returns (views: seq<seq<seq<KV>>>, lengths: seq<nat>, pending: seq<int>)
      requires Base() && Decoding(w, Now(), start, start, []) && sel == Decodable(start, |start|)
      ensures |views| == |lengths| == |pending| == |sel|
      ensures forall i :: 0 <= i < |sel| ==> InputsOf(w.depth, start, sel, i, views[i], lengths[i], pending[i])
    {
      hide ActiveOk, DoneOk, OutcomeOk, Advanced, MC.DecodeReady, Tidy, Backend.Valid;
      views, lengths, pending := [], [], [];
      for i := 0 to |sel|
        invariant |views| == |lengths| == |pending| == i
        invariant forall k :: 0 <= k < i ==> InputsOf(w.depth, start, sel, k, views[k], lengths[k], pending[k])
      {
        var s := start[sel[i]];
        assert ActiveOk(w, Now(), s);
        ActiveIsReady(w, Now(), s);
        ActiveIsLive(s);
        var view := backend.View(s.cache.value);
        views, lengths, pending := views + [view], lengths + [|s.gen.tokenIds| - 1], pending + [s.pending.value];
      }
    }

    lemma ActiveIsLive(s: Sequence)
      requires Base() && ActiveOk(w, Now(), s)
      ensures s.cache.Some? && s.cache.value in backend.live
    {
    }

    /** Appends the new slot of one row and delivers the sampled token. */
    method DecodeOne(s: Sequence, b: nat, pad: nat, logits: seq<seq<Logits>>, kv: seq<seq<seq<KV>>>) returns (ok: bool, s': Sequence)
      requires Base() && ActiveOk(w, Now(), s) && MC.RowIsFullPass(w.depth, s.gen.tokenIds, pad, b, logits, kv)
      modifies this`owner, this`outcome, backend`system, backend`lists, backend`live, backend`names, backend.copies
      ensures ok ==> Base() && Outside(old(Now()), Now(), {s.id}) && Advanced(w, Now(), s, s')
      ensures !ok ==> Starved(old(Now()), {s.id})
    {
      hide Base, Outside, OutcomeOk, Mine, MC.LayerIsFullCache, Sample, FullLogits, EmitOrFinish, DoneOk, Running;
      var n := |s.gen.tokenIds|;
      RunningHasBudget(w, s.gen);
      var tid := SampleLast(logits[b], s.gen.request.params);
      var cols := MC.Extract(w.depth, s.gen.tokenIds, pad, b, logits, kv, n - 1, n);
      ok, s' := Fill(s, n - 1, cols, tid);
      if ok {
        FilledIsAdvanced(w, Now(), s, s', tid);
      }
    }

    method DecodeRows(start: seq<Sequence>, sel: seq<nat>, pads: seq<int>, logits: seq<seq<Logits>>, kv: seq<seq<seq<KV>>>)
      returns (ok: bool, seqs: seq<Sequence>)
      requires Base() && Decoding(w, Now(), start, start, []) && sel == Decodable(start, |start|) && |pads| == |sel|
      requires forall i :: 0 <= i < |sel| ==> RowOfStep(w.depth, start, sel, i, pads[i], logits, kv)
      modifies this`owner, this`outcome, backend`system, backend`lists, backend`live, backend`names, backend.copies
      ensures ok ==> Base() && Outside(old(Now()), Now(), Ids(start)) && Decoding(w, Now(), start, seqs, sel)
      ensures !ok ==> Starved(old(Now()), Ids(start))
    {
      hide Base, Decoding, OutcomeOk, Outside, Decodable, ActiveOk, Advanced, MC.RowIsFullPass;
      ok, seqs := true, start;
      NothingChanged(Ids(start));
      for i := 0 to |sel|
        invariant ok && Base() && Outside(old(Now()), Now(), Ids(start)) && Decoding(w, Now(), start, seqs, sel[..i])
      {
        NextDecodable(w, Now(), start, seqs, sel, i);
        label before1:
        assert RowOfStep(w.depth, start, sel, i, pads[i], logits, kv);
        var s, s' := seqs[sel[i]], seqs[sel[i]];
        ok, s' := DecodeOne(s, i, pads[i], logits, kv);
        if !ok {
          StarvedBefore(old(Now()), old@before1(Now()), {s.id}, Ids(start));
          return;
        }
        DecodingNext(w, old@before1(Now()), Now(), start, seqs, sel[..i], sel[i], s');
        OutsideStep(old(Now()), old@before1(Now()), Now(), s.id, Ids(start));
        seqs := seqs[sel[i] := s'];
      }
      assert sel[..|sel|] == sel;
    }

    /** The batched model call of a decode step. */
    method DecodeCall(start: seq<Sequence>, sel: seq<nat>) returns (pads: seq<int>, logits: seq<seq<Logits>>, kv: seq<seq<seq<KV>>>)
      requires Base() && Decoding(w, Now(), start, start, []) && sel == Decodable(start, |start|) && sel != []
      ensures |pads| == |sel| && forall i :: 0 <= i < |sel| ==> RowOfStep(w.depth, start, sel, i, pads[i], logits, kv)
    {
      hide Base, Decoding, OutcomeOk, Outside, Decodable, ActiveOk, Advanced, MC.RowIsFullPass, MC.DecodeReady;
      var views, lengths, pending := DecodeInputs(start, sel);
      ghost var seqs := TokensOf(start, sel);
      forall i | 0 <= i < |sel| ensures MC.DecodeReady(seqs[i], views[i], lengths[i], pending[i], w.depth) {
        assert InputsOf(w.depth, start, sel, i, views[i], lengths[i], pending[i]);
        assert seqs[i] == start[sel[i]].gen.tokenIds;
      }
      pads, logits, kv := MC.Decode(w.depth, seqs, views, lengths, pending);
      forall i | 0 <= i < |sel| ensures RowOfStep(w.depth, start, sel, i, pads[i], logits, kv) {
        assert seqs[i] == start[sel[i]].gen.tokenIds;
      }
    }

    /** `_decode_step`, before finished sequences are dropped: every unfinished one gets one
        more token or its answer. */
    method DecodeAll(start: seq<Sequence>) returns (ok: bool, seqs: seq<Sequence>)
      requires Base() && Decoding(w, Now(), start, start, [])
      modifies this`owner, this`outcome, backend`system, backend`lists, backend`live, backend`names, backend.copies
      ensures ok ==> Base() && Outside(old(Now()), Now(), Ids(start))
      ensures ok ==> Decoding(w, Now(), start, seqs, Decodable(start, |start|))
      ensures !ok ==> Starved(old(Now()), Ids(start))
    {
      hide Base, Decoding, OutcomeOk, Outside, Decodable, ActiveOk, Advanced, RowOfStep;
      ok, seqs := true, start;
      var sel := Decodable(start, |start|);
      NothingChanged(Ids(start));
      if sel != [] {
        var pads, logits, kv := DecodeCall(start, sel);
        ok, seqs := DecodeRows(start, sel, pads, logits, kv);
      }
    }

    // ---------------------------------------------------------------------- sweeps

    /** Finishes the sequences whose cancel flag is set. */
    method Sweep(start: seq<Sequence>, cancelled: set<nat>) returns (seqs: seq<Sequence>)
      requires Base() && Swept(w, Now(), start, start, cancelled, 0)
      modifies this`owner, this`outcome, backend`system, backend`lists, backend`live, backend`names, backend.copies
      ensures Base() && Outside(old(Now()), Now(), Ids(start) * cancelled)
      ensures Swept(w, Now(), start, seqs, cancelled, |start|)
    {
      hide Base, Swept, Outside, Stoppable, CancelledSeq, Finish, OutcomeOk, CacheOk;
      seqs := start;
      ghost var ids := Ids(start) * cancelled;
      NothingChanged(ids);
      for i := 0 to |start|
        invariant Base() && Outside(old(Now()), Now(), ids) && Swept(w, Now(), start, seqs, cancelled, i)
      {
        SweptAt(w, Now(), start, seqs, cancelled, i);
        if seqs[i].id in cancelled {
          label before1:
          var s := seqs[i];
          var s' := CancelSeq(s);
          SweptNext(w, old@before1(Now()), Now(), start, seqs, cancelled, i, s');
          OutsideStep(old(Now()), old@before1(Now()), Now(), s.id, ids);
          seqs := seqs[i := s'];
        } else {
          SweptSkip(w, Now(), start, seqs, cancelled, i);
        }
      }
    }

    /** `_finish(seq, "STOP_CANCELLED", "cancelled")`. */
    method CancelSeq(s: Sequence) returns (s': Sequence)
      requires Base() && Stoppable(w, Now(), s)
      modifies this`owner, this`outcome, backend`system, backend`lists, backend`live, backend`names, backend.copies
      ensures Base() && Outside(old(Now()), Now(), {s.id}) && CancelledSeq(w, Now(), s, s')
    {
      hide Base, Outside, Finish, OutcomeOk, CacheOk, Mine, DoneOk;
      if s.cache.Some? {
        ghost var n :| CacheOk(w.depth, Now().lists, s.cache.value, s.gen.tokenIds, n);
        CacheLength(w.depth, Now().lists, s.cache.value, s.gen.tokenIds, n);
      }
      CancelIsCut(w, s.gen);
      s' := FinishSeq(s, Cancelled, true);
    }

    // ------------------------------------------------------------------- scheduling

    /** The state while `new_` has been taken from the queue but does not run yet. */
    ghost predicate Middle(new_: seq<Sequence>)
      reads this, backend, backend.copies
    {
      && Base() && Queued(w, Now(), arrivals, flagged, active, new_, waiting)
      && WithinBudget(active + new_, maxBatchSize, maxBatchTokens)
    }

    ghost predicate Valid()
      reads this, backend, backend.copies
    {
      Middle([])
    }

    /** `_take_waiting_locked`: the longest prefix of the queue that fits. */
    method TakeWaiting() returns (taken: seq<Sequence>)
      requires WithinBudget(active, maxBatchSize, maxBatchTokens)
      modifies this`waiting
      ensures old(waiting) == taken + waiting && WithinBudget(active + taken, maxBatchSize, maxBatchTokens)
      ensures |active| + |taken| >= maxBatchSize || waiting == [] ||
        (active + taken != [] &&
          TotalCost(active + taken) + |waiting[0].gen.request.prompt| + Max(waiting[0].gen.request.params.maxTokens, 0) > maxBatchTokens)
    {
      hide TotalCost;
      taken := [];
      assert active + [] == active;
      ghost var queue := waiting;
      var slots := maxBatchSize - |active|;
      if slots <= 0 {
        return;
      }
      var used := TotalCost(active);
      while waiting != [] && |taken| < slots
        invariant queue == taken + waiting && |taken| <= slots
        invariant used == TotalCost(active + taken)
        invariant WithinBudget(active + taken, maxBatchSize, maxBatchTokens)
        decreases |waiting|
      {
        var s := waiting[0];
        var cost := Cost(s);
        if (taken != [] || active != []) && used + cost > maxBatchTokens {
          break;
        }
        TotalCostSnoc(active + taken, s);
        assert active + (taken + [s]) == active + taken + [s];
        waiting, taken, used := waiting[1..], taken + [s], used + cost;
      }
    }

    /** Admission keeps the queue. */
    method Admit() returns (taken: seq<Sequence>)
      requires Valid()
      modifies this`waiting
      ensures Middle(taken) && old(waiting) == taken + waiting
      ensures taken != [] || |active| > 0 || old(waiting) == [] || maxBatchSize <= 0
    {
      hide Consistent, Tidy, WaitingOk, ActiveOk, Cost, TotalCost;
      assert active + [] == active;
      taken := TakeWaiting();
      SplitWaiting(w, Now(), taken, waiting);
      assert active + [] + (taken + waiting) == active + taken + waiting;
      QueueFromFields(w, Now(), arrivals, flagged, active, taken, waiting);
    }

    lemma Unfold(new_: seq<Sequence>)
      requires Middle(new_)
      ensures Base() && Queued(w, Now(), arrivals, flagged, active, new_, waiting)
      ensures WithinBudget(active + new_, maxBatchSize, maxBatchTokens)
    {
    }

    lemma Fold(new_: seq<Sequence>)
      requires Base() && Queued(w, Now(), arrivals, flagged, active, new_, waiting)
      requires WithinBudget(active + new_, maxBatchSize, maxBatchTokens)
      ensures Middle(new_) && (new_ == [] ==> Valid())
    {
    }

    /** `_sweep_waiting_cancelled_locked`. */
    method SweepWaiting(cancelled: set<nat>)
      requires Middle([]) && cancelled <= flagged
      modifies this`waiting, this`owner, this`outcome, backend`system, backend`lists, backend`live, backend`names, backend.copies
      ensures Middle([]) && waiting == Without(old(waiting), cancelled)
      ensures TotalWork(waiting) + |old(waiting)| - |waiting| <= TotalWork(old(waiting))
      ensures TotalBlocks(waiting, backend.blockSize) <= TotalBlocks(old(waiting), backend.blockSize)
    {
      hide *;
      Unfold([]);
      QueuedParts(w, Now(), arrivals, flagged, active, [], waiting);
      QueueFields(w, Now(), arrivals, flagged, active, [], waiting);
      WaitingCanBeSwept(w, Now(), waiting, cancelled);
      var swept := Sweep(waiting, cancelled);
      SweptOutcomes(w, Now(), flagged, waiting, swept, cancelled);
      SweepWaitingKeeps(w, old(Now()), Now(), arrivals, flagged, active, waiting, swept, cancelled);
      waiting := Unfinished(swept);
      Fold([]);
    }

    /** `_sweep_active_cancelled`. */
    method SweepActive(cancelled: set<nat>, ghost new_: seq<Sequence>)
      requires Middle(new_) && cancelled <= flagged
      modifies this`active, this`owner, this`outcome, backend`system, backend`lists, backend`live, backend`names, backend.copies
      ensures Middle(new_) && active == Without(old(active), cancelled)
      ensures TotalWork(active) + |old(active)| - |active| <= TotalWork(old(active))
      ensures TotalBlocks(active, backend.blockSize) <= TotalBlocks(old(active), backend.blockSize)
    {
      hide *;
      Unfold(new_);
      QueuedParts(w, Now(), arrivals, flagged, active, new_, waiting);
      QueueFields(w, Now(), arrivals, flagged, active, new_, waiting);
      ActiveCanBeSwept(w, Now(), active, cancelled);
      var swept := Sweep(active, cancelled);
      SweptOutcomes(w, Now(), flagged, active, swept, cancelled);
      SweepActiveKeeps(w, old(Now()), Now(), arrivals, flagged, active, new_, waiting, swept, cancelled);
      BudgetShrinks(active, Unfinished(swept), new_, maxBatchSize, maxBatchTokens);
      active := Unfinished(swept);
      Fold(new_);
    }

    /** Prefill of the new sequences and a decode step of everything that runs. */
    method RunBatch(new_: seq<Sequence>) returns (ok: bool)
      requires Middle(new_)
      modifies this`active, this`owner, this`outcome, backend`system, backend`lists, backend`live, backend`names, backend.copies
      ensures ok ==> Middle([]) && TotalWork(active) + |old(active) + new_| <= TotalWork(old(active) + new_)
      ensures ok ==> TotalBlocks(active, backend.blockSize) <= TotalBlocks(old(active) + new_, backend.blockSize)
      ensures !ok ==> backend.paged && TotalBlocks(old(active) + new_ + waiting, backend.blockSize) + LostBlocks() > backend.numBlocks
    {
      hide *;
      ghost var before, b0 := active, Now();
      Unfold(new_);
      assert Tidy(w, b0) by {
        BaseIsTidy();
      }
      QueuedParts(w, Now(), arrivals, flagged, active, new_, waiting);
      QueueFields(w, Now(), arrivals, flagged, active, new_, waiting);
      NewCanPrefill(w, Now(), new_);
      NothingChanged(Ids(new_));
      var done := [];
      ok := true;
      if new_ != [] {
        ok, done := Prefill(new_);
      }
      if ok {
        ghost var b1 := Now();
        active := active + done;
        ghost var mid := active;
        assert Now() == b1;
        BatchCanDecode(w, b0, b1, before, new_, done, mid);
        ghost var seqs;
        ok, seqs := DecodeStep(b0, Ids(new_));
        if ok {
          BatchKeeps(w, b0, b1, Now(), arrivals, flagged, before, new_, waiting, mid, seqs);
          BudgetShrinks(before + new_, active, [], maxBatchSize, maxBatchTokens) by {
            assert before + new_ + [] == before + new_;
          }
          Fold([]);
        } else {
          TooSmall(b0, before, new_, Ids(mid));
        }
      } else {
        IdsOfPart(before, new_);
        TooSmall(b0, before, new_, Ids(new_));
      }
    }

    /** A batch that starves means a pool too small for the whole queue. */
    lemma TooSmall(b: Books, before: seq<Sequence>, new_: seq<Sequence>, ids: set<nat>)
      requires Queued(w, b, arrivals, flagged, before, new_, waiting) && Tidy(w, b)
      requires Starved(b, ids) && ids <= Ids(before + new_)
      requires b.costs == Costs(arrivals) && b.lost == lost
      ensures backend.paged && TotalBlocks(before + new_ + waiting, backend.blockSize) + LostBlocks() > backend.numBlocks
    {
      hide Queued, Tidy, Crowded, Ids, TotalBlocks;
      IdsOfFront(before + new_, waiting);
      CrowdedQueue(w, b, arrivals, flagged, before, new_, waiting, ids, backend.blockSize, backend.numBlocks);
    }

    lemma IdsOfPart(a: seq<Sequence>, b: seq<Sequence>)
      ensures Ids(b) <= Ids(a + b)
    {
      hide Ids;
      forall id | id in Ids(b) ensures id in Ids(a + b) {
        var j :| 0 <= j < |b| && b[j].id == id;
        assert (a + b)[|a| + j].id == id;
      }
    }

    lemma IdsOfFront(a: seq<Sequence>, b: seq<Sequence>)
      ensures Ids(a) <= Ids(a + b)
    {
      hide Ids;
      forall id | id in Ids(a) ensures id in Ids(a + b) {
        var j :| 0 <= j < |a| && a[j].id == id;
        assert (a + b)[j].id == id;
      }
    }

    /** `_decode_step`. */
    method DecodeStep(ghost b0: Books, ghost ids: set<nat>) returns (ok: bool, ghost seqs: seq<Sequence>)
      requires Base() && Decoding(w, Now(), active, active, []) && Outside(b0, Now(), ids) && ids <= Ids(active)
      requires b0.costs == Now().costs
      modifies this`active, this`owner, this`outcome, backend`system, backend`lists, backend`live, backend`names, backend.copies
      ensures ok ==> Base() && Outside(b0, Now(), Ids(old(active)))
      ensures ok ==> Decoding(w, Now(), old(active), seqs, Decodable(old(active), |old(active)|)) && active == Unfinished(seqs)
      ensures !ok ==> Starved(b0, Ids(old(active)))
    {
      hide *;
      ghost var b1 := Now();
      OutsideMore(b0, b1, ids, Ids(active));
      var decoded;
      ok, decoded := DecodeAll(active);
      seqs := decoded;
      if ok {
        OutsideTransitive(b0, b1, Now(), Ids(active));
        active := Unfinished(decoded);
      } else {
        StarvedBefore(b0, b1, Ids(active), Ids(active));
      }
    }

    /** `[s for s in new if not self._cancelled(s)]`: a request whose flag was set after the sweep
        is dropped; what it holds is not given back. */
    method DropCancelled(new_: seq<Sequence>, gone: set<nat>) returns (kept: seq<Sequence>)
      requires Middle(new_) && gone <= flagged
      modifies this`lost
      ensures Middle(kept) && kept == Without(new_, gone) && lost == old(lost) + Ids(new_) * gone
      ensures TotalWork(kept) + |new_| - |kept| <= TotalWork(new_)
      ensures TotalBlocks(kept, backend.blockSize) + LostBlocks() <= TotalBlocks(new_, backend.blockSize) + old(LostBlocks())
    {
      hide *;
      Unfold(new_);
      BaseIsFunded();
      QueueFields(w, Now(), arrivals, flagged, active, new_, waiting);
      kept := Uncancelled(new_, gone);
      WorkOfWaiting(w, Now(), new_);
      WithoutShrinks(new_, gone, backend.blockSize);
      WaitingCosts(w, Now(), new_);
      WithoutPays(Now().costs, new_, gone, lost, backend.blockSize);
      LostBlocksAre();
      ghost var b := Now();
      lost := lost + Ids(new_) * gone;
      DropKeeps(w, b, Now(), arrivals, flagged, active, new_, waiting, gone);
      BudgetKeeps(active, new_, kept, maxBatchSize, maxBatchTokens);
      DropKeepsBase(b);
      Fold(kept);
      LostBlocksAre();
    }

    method Uncancelled(new_: seq<Sequence>, gone: set<nat>) returns (kept: seq<Sequence>)
      ensures kept == Without(new_, gone)
    {
      hide Without;
      kept := [];
      KeptNone(gone);
      assert new_[..0] == [];
      for i := 0 to |new_|
        invariant kept == Without(new_[..i], gone)
      {
        KeptNext(new_, gone, i);
        if new_[i].id !in gone {
          kept := kept + [new_[i]];
        }
      }
      assert new_[..|new_|] == new_;
    }

    twostate lemma DropKeepsBase(b: Books)
      requires b == old(Now()) && old(Base()) && Now() == b.(lost := lost) && backend.Valid() && owner == old(owner)
      requires backend.live == old(backend.live)
      ensures Base()
    {
    }

    /** One pass of `_run_loop`.  The flags in `late` are set after the sweep of the queue, so the
        requests just taken that have one are dropped: they are lost.  Unless there was nothing to
        do, less work is left afterwards. */
    method Iterate(cancelled: set<nat>, late: set<nat>) returns (ok: bool, ghost taken: seq<Sequence>)
      requires Valid()
      modifies this`waiting, this`active, this`owner, this`outcome, this`flagged, this`lost
      modifies backend`system, backend`lists, backend`live, backend`names, backend.copies
      ensures flagged == old(flagged) + cancelled + late && lost == old(lost) + Ids(taken) * late
      ensures Without(old(waiting), cancelled) == taken + waiting
      ensures taken != [] || old(active) != [] || waiting == [] || maxBatchSize <= 0
      ensures ok ==> Valid() && TotalWork(active) + TotalWork(waiting) <= old(TotalWork(active) + TotalWork(waiting))
      ensures ok && old(active + waiting) != [] && maxBatchSize >= 1 ==>
        TotalWork(active) + TotalWork(waiting) < old(TotalWork(active) + TotalWork(waiting))
      ensures ok ==> Demand() <= old(Demand())
      ensures !ok ==> backend.paged && old(Demand()) > backend.numBlocks
    {
      hide *;
      DemandIs();
      UnfoldValid();
      SeeFlags(cancelled, []);
      SweepWaiting(cancelled);
      FoldValid();
      DemandIs();
      taken := [];
      if waiting == [] && active == [] {
        TakenNone(taken, late);
        SeeFlags(late, []);
        FoldValid();
        ok := true;
      } else {
        label swept:
        ok, taken := WorkingPass(cancelled, late);
        NotSwept(old(waiting), cancelled, taken, late);
        DemandIs();
      }
    }

    /** Admission, the second look at the flags, and a batch. */
    method WorkingPass(cancelled: set<nat>, late: set<nat>) returns (ok: bool, ghost taken: seq<Sequence>)
      requires Valid() && active + waiting != [] && cancelled <= flagged
      modifies this`waiting, this`active, this`owner, this`outcome, this`flagged, this`lost
      modifies backend`system, backend`lists, backend`live, backend`names, backend.copies
      ensures flagged == old(flagged) + late && lost == old(lost) + Ids(taken) * (cancelled + late) && old(waiting) == taken + waiting
      ensures taken != [] || old(active) != [] || maxBatchSize <= 0
      ensures ok ==> Valid() && TotalWork(active) + TotalWork(waiting) <= old(TotalWork(active) + TotalWork(waiting))
      ensures ok && maxBatchSize >= 1 ==> TotalWork(active) + TotalWork(waiting) < old(TotalWork(active) + TotalWork(waiting))
      ensures ok ==> Demand() <= old(Demand())
      ensures !ok ==> backend.paged && old(Demand()) > backend.numBlocks
    {
      hide *;
      DemandIs();
      var new_ := Admit();
      taken := new_;
      SeeFlags(late, new_);
      var kept := DropCancelled(new_, cancelled + late);
      SweepActive(cancelled + late, kept);
      label ready:
      TotalBlocksAppend(new_, waiting, backend.blockSize);
      TotalBlocksAppend(active, kept, backend.blockSize);
      TotalBlocksAppend(active + kept, waiting, backend.blockSize);
      ok := RunBatch(kept);
      if ok {
        FoldValid();
        TotalWorkAppend(new_, waiting);
        TotalWorkAppend(old@ready(active), kept);
      }
      DemandIs();
    }

    lemma TakenNone(taken: seq<Sequence>, late: set<nat>)
      requires taken == []
      ensures Ids(taken) * late == {} && taken + waiting == waiting
    {
    }

    /** A taken request is lost exactly if its flag was set after the sweep. */
    lemma NotSwept(before: seq<Sequence>, cancelled: set<nat>, new_: seq<Sequence>, late: set<nat>)
      requires Without(before, cancelled) == new_ + waiting
      ensures Ids(new_) * (cancelled + late) == Ids(new_) * late
    {
      hide Without, Ids;
      forall id | id in Ids(new_) ensures id !in cancelled {
        var j :| 0 <= j < |new_| && new_[j].id == id;
        assert (new_ + waiting)[j] in Without(before, cancelled);
      }
    }

    lemma KeptNone(gone: set<nat>)
      ensures Without([], gone) == []
    {
    }

    lemma KeptNext(seqs: seq<Sequence>, gone: set<nat>, i: nat)
      requires i < |seqs|
      ensures Without(seqs[..i + 1], gone) == Without(seqs[..i], gone) + (if seqs[i].id in gone then [] else [seqs[i]])
    {
      assert seqs[..i + 1][..i] == seqs[..i];
    }

    lemma BaseIsFunded()
      requires Base()
      ensures Funded(Now())
    {
    }

    /** Blocks that lost requests may hold for ever. */
    ghost function LostBlocks(): nat
      reads this`arrivals, this`lost
    {
      CostBlocks(Costs(arrivals), lost, backend.blockSize)
    }

    lemma LostBlocksAre()
      ensures LostBlocks() == CostBlocks(Costs(arrivals), lost, backend.blockSize) == CostBlocks(Now().costs, Now().lost, backend.blockSize)
    {
    }

    /** Blocks that everything queued may come to take when nothing is shared, and those lost. */
    ghost function Demand(): nat
      reads this`active, this`waiting, this`arrivals, this`lost
    {
      TotalBlocks(active, backend.blockSize) + TotalBlocks(waiting, backend.blockSize) + LostBlocks()
    }

    lemma DemandIs()
      ensures Demand() == TotalBlocks(active, backend.blockSize) + TotalBlocks(waiting, backend.blockSize) + LostBlocks()
    {
    }

    lemma UnfoldValid()
      requires Valid()
      ensures Middle([])
    {
    }

    lemma FoldValid()
      requires Middle([])
      ensures Valid()
    {
    }

    ghost method SeeFlags(cancelled: set<nat>, new_: seq<Sequence>)
      requires Middle(new_)
      modifies this`flagged
      ensures Middle(new_) && flagged == old(flagged) + cancelled
    {
      MoreFlags(w, Now(), arrivals, flagged, cancelled, active + new_ + waiting);
      flagged := flagged + cancelled;
    }

    /** Uncancelled requests start in arrival order: whatever runs arrived before whatever
        waits, and both lists are in arrival order. */
    lemma ArrivalOrder()
      requires Valid()
      ensures Ordered(active) && Ordered(waiting) && forall s, t :: s in active && t in waiting ==> s.id < t.id
    {
      hide Answered, Known, Tidy, ActiveOk, WaitingOk;
      assert active + [] == active;
      OrderedParts(active, waiting);
    }

    /** One sequence runs alone, or all live caches fit the token budget even after the next
        decode step has added a position to each. */
    lemma CachesWithinBudget()
      requires Valid()
      ensures |active| <= Max(maxBatchSize, 0)
      ensures forall j :: 0 <= j < |active| ==> active[j].cache.Some? && active[j].cache.value < |Now().lists|
      ensures |active| <= 1 || TotalLength(Now(), active) + |active| <= maxBatchTokens
    {
      hide Consistent, Tidy, TotalCost, TotalLength;
      assert active + [] == active;
      CachesFitCosts(w, Now(), active);
    }

    // ------------------------------------------------------------ submission, shutdown

    /** `_make_sequence` with its prefix match, and `_enqueue`. */
    method Submit(r: Request)
      requires Valid() && r.prompt != []
      modifies this`waiting, this`owner, this`arrivals, backend`system, backend`live, backend`names, backend.copies
      ensures Valid() && arrivals == old(arrivals) + [r] && active == old(active) && outcome == old(outcome)
      ensures |waiting| == |old(waiting)| + 1 && waiting[..|old(waiting)|] == old(waiting)
      ensures waiting[|old(waiting)|].id == |old(arrivals)| && waiting[|old(waiting)|].gen == Start(r)
      ensures Demand() == old(Demand()) + BlocksFor(RequestCost(r), backend.blockSize)
    {
      hide *;
      DemandIs();
      UnfoldValid();
      Unfold([]);
      ghost var number := |arrivals|;
      NumbersBelow(w, Now(), arrivals, flagged, active, waiting);
      LostBefore();
      LostBlocksStay(arrivals, r);
      LostBlocksAre();
      Register(r);
      label registered:
      var s := MatchFor(r, |arrivals| - 1);
      StartOf(r);
      OutsideTransitive(old(Now()), old@registered(Now()), Now(), {number});
      JoinKeeps(w, old(Now()), Now(), old(arrivals), flagged, active, waiting, s);
      TotalBlocksSnoc(waiting, s, backend.blockSize);
      CostOf(s);
      waiting := waiting + [s];
      LostBlocksAre();
      DemandIs();
      Fold([]);
    }

    lemma LostBlocksStay(rs: seq<Request>, r: Request)
      requires forall id :: id in lost ==> id < |rs|
      ensures CostBlocks(Costs(rs + [r]), lost, backend.blockSize) == CostBlocks(Costs(rs), lost, backend.blockSize)
    {
      hide RequestCost;
      assert Costs(rs + [r]) == Costs(rs) + [RequestCost(r)];
      CostBlocksSnoc(Costs(rs), RequestCost(r), lost, backend.blockSize);
    }

    /** Only flagged requests are lost, and they have no answer. */
    lemma LostBefore()
      requires Valid()
      ensures forall id :: id in lost ==> id < |arrivals| && id in flagged && id !in outcome
    {
      hide Base, AllActive, AllWaiting, Answered, Known, Ordered;
    }

    lemma CostOf(s: Sequence)
      ensures Cost(s) == RequestCost(s.gen.request)
    {
    }

    /** The request gets its number. */
    method Register(r: Request)
      requires Base()
      modifies this`arrivals
      ensures Base() && arrivals == old(arrivals) + [r] && Now() == old(Now()).(costs := Costs(arrivals))
      ensures Outside(old(Now()), Now(), {|old(arrivals)|})
    {
      hide Tidy, Funded, Backend.Valid;
      arrivals := arrivals + [r];
      TidyWithFewerOwners(w, old(Now()), Now());
      FundedWithMoreCosts(old(Now()), Now());
      FundedIsBounded(old(Now()));
    }

    lemma FundedIsBounded(b: Books)
      requires Funded(b)
      ensures forall i :: i in b.owner ==> i < |b.lists|
    {
    }

    lemma StartOf(r: Request)
      ensures Start(r).request == r
    {
    }

    /** A new sequence with the prefix that `match` finds for it. */
    method MatchFor(r: Request, id: nat) returns (s: Sequence)
      requires Base() && r.prompt != [] && id !in outcome && id !in lost && forall i :: i in owner ==> owner[i] != id
      requires id < |arrivals| && arrivals[id] == r
      modifies this`owner, backend`system, backend`live, backend`names, backend.copies
      ensures Base() && outcome == old(outcome) && Outside(old(Now()), Now(), {id})
      ensures forall i :: i in owner ==> owner[i] == id || (i in old(owner) && owner[i] == old(owner)[i])
      ensures s.id == id && s.gen == Start(r) && WaitingOk(w, Now(), s)
    {
      hide Tidy, OutcomeOk, ContentsTrue, WaitingOk, Outside, MatchOutcome, Funded, RequestCost, Backend.Valid, PrefixReuse.LongestStored, PrefixCaches.Keys;
      TokenIdsAreValid(r.prompt);
      FundedIsBounded(Now());
      var n, p := backend.MatchPrefix(r.prompt);
      s := Sequence(id, Start(r), n, p, None, None);
      OutcomeKinds(backend.paged, w.depth, r.prompt, n, p, old(Now()).lists, old(backend.live), backend.Lists(), backend.live);
      MatchedLength(w.depth, r, n, p, old(Now()).lists, old(backend.live), backend.Lists(), backend.live);
      if p.Blocks? {
        owner := owner[p.owner := id];
        TidyWithNewOwner(w, old(Now()), Now(), p.owner, id);
        FundedWithNewOwner(old(Now()), Now(), p.owner, id);
      } else {
        TidyWithFewerOwners(w, old(Now()), Now());
      }
      MatchedIsWaiting(w, old(Now()), Now(), s, old(backend.live), backend.live);
    }

    /** A match stores less than its request costs. */
    lemma MatchedLength(depth: nat, r: Request, n: nat, p: Prefix, lists: PrivateLists, live: set<nat>, lists': PrivateLists, live': set<nat>)
      requires MatchOutcome(p.Blocks?, depth, r.prompt, n, p, lists, live, lists', live')
      ensures if p.Blocks? then lists <= lists' && p.owner < |lists'| && |lists'[p.owner]| <= RequestCost(r) else lists' == lists
    {
    }

    lemma OutcomeKinds(paged: bool, depth: nat, tokens: seq<int>, n: nat, p: Prefix,
                       lists: PrivateLists, live: set<nat>, lists': PrivateLists, live': set<nat>)
      requires MatchOutcome(paged, depth, tokens, n, p, lists, live, lists', live')
      ensures MatchOutcome(p.Blocks?, depth, tokens, n, p, lists, live, lists', live')
    {
    }

    /** With nothing queued, every request not lost has its answer: the naive loop's, or if its
        cancel flag was seen perhaps that loop cut short, with one final event.  Lost requests were
        flagged and have none; what is still held is held for them, and without them every block
        is free. */
    lemma Idle()
      requires Valid() && waiting == [] && active == []
      ensures forall id: nat :: id < |arrivals| && id !in lost ==> Complete(id)
      ensures forall id :: id in lost ==> id < |arrivals| && id in flagged && id !in outcome
      ensures forall i :: i in backend.live ==> i in owner && owner[i] in lost
      ensures lost == {} ==> backend.live == {} && (backend.paged ==> AllBlocksFree())
    {
      hide OutcomeOk, OneFinal, Consistent, Tidy, Reference, Concluded, Told;
      LostBefore();
      assert Queued(w, Now(), arrivals, flagged, [], [], []);
      EmptyQueue(w, Now(), arrivals, flagged);
      if lost == {} {
        assert backend.live == {};
        if backend.paged {
          backend.IdlePoolIsFree();
        }
      }
      forall id: nat | id < |arrivals| && id !in lost ensures Complete(id) {
        AnswerHasOneFinal(w, outcome[id]);
        AnswerConcludes(w, outcome[id]);
        if id !in flagged {
          AnswerHasPrompt(w, outcome[id]);
          ReferenceConcludes(w, arrivals[id]);
        }
      }
    }

    ghost predicate Complete(id: nat)
      reads this`outcome, this`arrivals, this`flagged
    {
      && id in outcome && Answered(w, arrivals, flagged, id, outcome[id]) && OutcomeOk(w, outcome[id])
      && OneFinal(outcome[id]) && Concluded(w, outcome[id]) && (id !in flagged ==> Told(outcome[id]) != Cancelled)
      && outcome[id].generated <= Max(0, arrivals[id].params.maxTokens)
    }

    ghost predicate AllBlocksFree()
      reads backend
    {
      forall b: nat :: b < |backend.system.pool.refs| ==> b in backend.system.pool.free
    }

    /** Without new arrivals the loop is idle after at most `TotalWork` iterations: for waiting
        requests, the sum of `max(1, max_tokens)`.  It cannot fail with contiguous caches, nor
        with a pool as large as everything queued or lost may come to store.  Nothing is lost
        unless some flag is set during a pass, after its sweep of the queue. */
    method Drain(flags: seq<Turn>) returns (ok: bool, n: nat)
      requires Valid() && maxBatchSize >= 1
      modifies this`waiting, this`active, this`owner, this`outcome, this`flagged, this`lost
      modifies backend`system, backend`lists, backend`live, backend`names, backend.copies
      ensures !ok ==> backend.paged && old(Demand()) > backend.numBlocks
      ensures n <= old(TotalWork(active) + TotalWork(waiting))
      ensures old(lost) <= lost <= old(lost) + LateFlags(flags)
      ensures ok ==> Valid() && waiting == [] && active == [] && forall id: nat :: id < |arrivals| && id !in lost ==> Complete(id)
      ensures ok && lost == {} && backend.paged ==> AllBlocksFree()
    {
      hide *;
      ok, n := true, 0;
      WorkIsPositive();
      while active + waiting != []
        invariant Valid() && ok && TotalWork(active) + TotalWork(waiting) >= 0
        invariant n + TotalWork(active) + TotalWork(waiting) <= old(TotalWork(active) + TotalWork(waiting))
        invariant Demand() <= old(Demand()) && old(lost) <= lost <= old(lost) + LateFlags(flags)
        decreases TotalWork(active) + TotalWork(waiting)
      {
        var turn := if n < |flags| then flags[n] else Turn([], {}, {});
        LateOfTurn(flags, n);
        ghost var taken;
        ok, taken := Iterate(turn.cancelled, turn.late);
        if !ok {
          return;
        }
        WorkIsPositive();
        n := n + 1;
      }
      Idle();
    }

    /** A request alone in the engine whose flag is set between the two looks: it is lost. */
    method LateFlagLoses(r: Request) returns (ok: bool)
      requires Valid() && waiting == [] && active == [] && maxBatchSize >= 1 && r.prompt != []
      modifies this`waiting, this`active, this`owner, this`outcome, this`flagged, this`lost, this`arrivals
      modifies backend`system, backend`lists, backend`live, backend`names, backend.copies
      ensures lost == old(lost) + {|old(arrivals)|} && (ok ==> Valid() && |old(arrivals)| !in outcome)
    {
      hide *;
      Submit(r);
      label queued:
      var id := |arrivals| - 1;
      ghost var taken;
      ok, taken := Iterate({}, {id});
      TookTheOne(old@queued(waiting), taken, id);
      if ok {
        LostBefore();
      }
    }

    lemma TookTheOne(before: seq<Sequence>, taken: seq<Sequence>, id: nat)
      requires |before| == 1 && before[0].id == id && Without(before, {}) == taken + waiting && (taken != [] || waiting == [])
      ensures Ids(taken) * {id} == {id}
    {
      assert before[..0] == [] && Without(before[..0], {}) == [];
      assert Without(before, {}) == before;
      assert taken == before;
    }

    /** The requests of one `generate_batch` call. */
    method SubmitAll(rs: seq<Request>)
      requires Valid() && NoneEmpty(rs)
      modifies this`waiting, this`owner, this`arrivals, backend`system, backend`live, backend`names, backend.copies
      ensures Valid() && arrivals == old(arrivals) + rs && active == old(active) && outcome == old(outcome)
      ensures Demand() == old(Demand()) + RequestBlocks(rs, backend.blockSize)
    {
      hide Valid, Demand, BlocksFor, RequestCost;
      for i := 0 to |rs|
        invariant Valid() && arrivals == old(arrivals) + rs[..i] && active == old(active) && outcome == old(outcome)
        invariant Demand() == old(Demand()) + RequestBlocks(rs[..i], backend.blockSize)
      {
        Submit(rs[i]);
        assert rs[..i + 1][..i] == rs[..i];
      }
      assert rs[..|rs|] == rs;
    }

    /** `_run_loop` while requests keep arriving: before each pass some are submitted and some
        cancel flags are set.  At any time the answers given are the naive loop's.  It cannot
        fail with contiguous caches, nor with a pool as large as all these requests may store. */
    method RunLoop(script: seq<Turn>) returns (ok: bool)
      requires Valid() && forall k :: 0 <= k < |script| ==> NoneEmpty(script[k].arriving)
      modifies this`waiting, this`active, this`owner, this`outcome, this`flagged, this`lost, this`arrivals
      modifies backend`system, backend`lists, backend`live, backend`names, backend.copies
      ensures !ok ==> backend.paged && old(Demand()) + RequestBlocks(Submitted(script), backend.blockSize) > backend.numBlocks
      ensures ok ==> Valid() && arrivals == old(arrivals) + Submitted(script)
      ensures ok ==> forall id :: id in outcome && id !in flagged ==> id < |arrivals| && outcome[id] == Reference(w, arrivals[id])
    {
      hide *;
      ok := true;
      SubmittedSoFar(script, 0);
      NoRequestBlocks(backend.blockSize);
      for k := 0 to |script|
        invariant ok && Valid() && arrivals == old(arrivals) + Submitted(script[..k])
        invariant Demand() <= old(Demand()) + RequestBlocks(Submitted(script[..k]), backend.blockSize)
      {
        SubmittedSoFar(script, k);
        SubmitAll(script[k].arriving);
        RequestBlocksAppend(Submitted(script[..k]), script[k].arriving, backend.blockSize);
        ghost var taken;
        ok, taken := Iterate(script[k].cancelled, script[k].late);
        if !ok {
          SubmittedGrows(script, k + 1, backend.blockSize);
          return;
        }
      }
      assert script[..|script|] == script;
      AnswersAreReference();
    }

    /** At any time every answer already given, unless its cancel flag was seen, is the naive
        loop's. */
    lemma AnswersAreReference()
      requires Valid()
      ensures forall id :: id in outcome && id !in flagged ==> id < |arrivals| && outcome[id] == Reference(w, arrivals[id])
    {
    }

    lemma WorkIsPositive()
      requires Valid()
      ensures TotalWork(active) + TotalWork(waiting) >= 0
    {
      hide Consistent, Tidy, TotalWork;
      WorkOfQueued(w, Now(), active, waiting);
      WorkNotNegative(active + waiting);
      TotalWorkAppend(active, waiting);
    }

    /** `stop`: everything left is finished as cancelled. */
    method Stop()
      requires Valid()
      modifies this`waiting, this`active, this`owner, this`outcome, this`flagged
      modifies backend`system, backend`lists, backend`live, backend`names, backend.copies
      ensures Valid() && waiting == [] && active == [] && forall id: nat :: id < |arrivals| && id !in lost ==> Complete(id)
    {
      hide *;
      UnfoldValid();
      var all := Ids(waiting) + Ids(active);
      SeeFlags(all, []);
      SweepWaiting(all);
      SweepActive(all, []);
      NoneLeft(waiting, old(waiting), all);
      NoneLeft(active, old(active), all);
      FoldValid();
      Idle();
    }
  }
}
