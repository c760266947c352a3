/** How each batch ended, and what the scheduler's own finals say about it, over every run. */
module BatchEndings {
  import opened Wrappers
  import opened BatchSchedulers
  import opened BatchRouting
  import opened BatchLaws

  /** A step that ends a batch: the call failed, or the stream ended. */
  predicate IsEnding(act: Act) { act.Reject? || act.EndStream? }

  /** How batch `d` ended in a run. */
  function Endings(steps: seq<Step>, d: nat): seq<Act> {
    if steps == [] then [] else
      var last, before := steps[|steps| - 1], Endings(steps[..|steps| - 1], d);
      if last.Dispatch? && last.d == d && IsEnding(last.act) then before + [last.act] else before
  }

  /** A final of the scheduler's own: no text, no tool, no usage. */
  predicate Says(e: Event, stopReason: string, finishReason: string, error: string) {
    && e.kind.FinalKind? && e.token == "" && e.tool.None? && e.usage.None?
    && e.stopReason == stopReason && e.finishReason == finishReason && e.error == error
  }

  /** The final an ending gives: an error when the call or the stream failed or the stream ended
      too soon, a cancellation without error text when the batch was cancelled. */
  predicate Tells(e: Event, act: Act) {
    && (act.Reject? ==> Says(e, "STOP_ERROR", "error", "batch generate failed: " + act.error))
    && (act == EndStream(EndOfStream) ==> Says(e, "STOP_ERROR", "error", "inference stream ended without final"))
    && (act.EndStream? && act.end.Broken? ==> Says(e, "STOP_ERROR", "error", act.end.error))
    && (act == EndStream(Cancelled) ==> Says(e, "STOP_CANCELLED", "cancelled", ""))
  }

  ghost predicate SentFinal(rs: seq<Response>, id: string) {
    exists k :: 0 <= k < |rs| && rs[k].requestId == id && rs[k].kind.FinalKind?
  }

  // ------------------------------------------------------------------- one dispatcher

  ghost predicate PhaseEnds(disp: Dispatcher, es: seq<Act>) {
    match disp.phase
    case Finishing(last) =>
      |es| == 1 && es[0].EndStream? && Tells(last, es[0]) && (es[0].end.Cancelled? ==> disp.aborted)
    case Failing(_, error) => |es| == 1 && es[0].Reject? && Tells(error, es[0])
    case Done(rejected) =>
      |es| == 1 && IsEnding(es[0]) && (rejected <==> es[0].Reject?) && (es[0] == EndStream(Cancelled) ==> disp.aborted)
    case _ => es == []
  }

  /** What the scheduler itself sent names how the batch ended; a channel closed without that had
      a final of the worker's, or was full. */
  ghost predicate ItemEnds(it: Item, handled: seq<Response>, es: seq<Act>) {
    && (it.closing != [] ==> |es| == 1)
    && (forall i :: 0 <= i < |it.closing| ==> Tells(it.closing[i], es[0]))
    && (it.closes > 0 && it.closing == [] ==> |it.routed| >= EVENTS_CAPACITY || SentFinal(handled, it.requestId))
  }

  ghost predicate ItemsEnd(items: seq<Item>, d: nat, handled: seq<Response>, es: seq<Act>) {
    forall x :: 0 <= x < |items| && items[x].at == Dispatched(d) ==> ItemEnds(items[x], handled, es)
  }

  lemma MoreHandled(it: Item, handled: seq<Response>, r: Response, es: seq<Act>)
    requires ItemEnds(it, handled, es)
    ensures ItemEnds(it, handled + [r], es)
  {
    if SentFinal(handled, it.requestId) {
      var k :| 0 <= k < |handled| && handled[k].requestId == it.requestId && handled[k].kind.FinalKind?;
      assert (handled + [r])[k] == handled[k];
    }
  }

  lemma ItemsMoreHandled(items: seq<Item>, d: nat, handled: seq<Response>, r: Response, es: seq<Act>)
    requires ItemsEnd(items, d, handled, es)
    ensures ItemsEnd(items, d, handled + [r], es)
  {
    hide ItemEnds;
    forall x | 0 <= x < |items| && items[x].at == Dispatched(d) ensures ItemEnds(items[x], handled + [r], es) {
      MoreHandled(items[x], handled, r, es);
    }
  }

  lemma DeliveredEnds(items: seq<Item>, disp: Dispatcher, d: nat, stopped: bool, sent: bool, x: nat, es: seq<Act>)
    requires DispatcherOk(items, disp, d, stopped) && disp.phase.Delivering? && ItemsEnd(items, d, disp.handled, es)
    requires Lookup(items, disp, disp.phase.r.requestId) == Some(x)
    ensures
      var items1 := if sent then items[x := items[x].Route(ToEvent(disp.phase.r))] else items;
      var move := Delivered(items1, disp, disp.phase.r, x);
      ItemsEnd(move.items, d, move.disp.handled, es)
  {
    hide DispatcherOk, Routed, ItemEnds, ToEvent;
    var r := disp.phase.r;
    var it, jx := DeliveringItem(items, disp, d, stopped, x);
    ItemsMoreHandled(items, d, disp.handled, r, es);
    assert ItemEnds(it, disp.handled, es);
    RoutedEnds(it, disp.handled, r, es);
  }

  lemma RoutedEnds(it: Item, handled: seq<Response>, r: Response, es: seq<Act>)
    requires it.closes == 0 && it.requestId == r.requestId && ItemEnds(it, handled, es)
    ensures ItemEnds(it.Route(ToEvent(r)), handled + [r], es)
    ensures r.kind.FinalKind? ==> ItemEnds(it.Close(), handled + [r], es)
    ensures r.kind.FinalKind? ==> ItemEnds(it.Route(ToEvent(r)).Close(), handled + [r], es)
  {
    hide ToEvent;
    assert (handled + [r])[|handled|] == r;
    assert it.Route(ToEvent(r)).closing == it.closing == it.Close().closing;
  }

  lemma FinishedEnds(it: Item, handled: seq<Response>, es: seq<Act>, e: Event)
    requires it.closes == 0 && it.closing == [] && |es| == 1 && Tells(e, es[0])
    requires it.taken <= |it.Sent()|
    ensures ItemEnds(it.Finish(e), handled, es)
  {
  }

  lemma FinishableItem(items: seq<Item>, disp: Dispatcher, d: nat, stopped: bool, id: string, x: nat)
    requires DispatcherOk(items, disp, d, stopped) && disp.phase.Finishing? && Lookup(items, disp, id) == Some(x)
    ensures items[x].closes == 0 && items[x].closing == []
  {
    hide ForId, UpToFinal, Subsequence, HasFinal;
    assert PositionOk(disp, disp.index[id], items[x], stopped);
  }

  lemma FailableItem(items: seq<Item>, disp: Dispatcher, d: nat, stopped: bool)
    requires DispatcherOk(items, disp, d, stopped) && disp.phase.Failing? && disp.phase.count < |disp.batch|
    ensures disp.batch[disp.phase.count] < |items|
    ensures items[disp.batch[disp.phase.count]].closes == 0 && items[disp.batch[disp.phase.count]].closing == []
  {
    assert PositionOk(disp, disp.phase.count, items[disp.batch[disp.phase.count]], stopped);
  }

  lemma FirstEnding(items: seq<Item>, d: nat, handled: seq<Response>, act: Act)
    requires ItemsEnd(items, d, handled, [])
    ensures ItemsEnd(items, d, handled, [act])
  {
  }

  lemma AdvanceEnds(items: seq<Item>, disp: Dispatcher, d: nat, stopped: bool, act: Act, es: seq<Act>)
    requires DispatcherOk(items, disp, d, stopped) && Advance(items, disp, stopped, act).Some? && AllSane(items)
    requires PhaseEnds(disp, es) && ItemsEnd(items, d, disp.handled, es)
    ensures
      var move := Advance(items, disp, stopped, act).value;
      var es' := if IsEnding(act) then es + [act] else es;
      PhaseEnds(move.disp, es') && ItemsEnd(move.items, d, move.disp.handled, es')
  {
    hide DispatcherOk, ItemsEnd, Tells, AllCancelled, AllSane, ToEvent;
    assert [] + [act] == [act];
    match act
    case Reject(error) =>
      CallTells(error);
      FirstEnding(items, d, disp.handled, act);
    case EndStream(end) =>
      EndTells(end);
      FirstEnding(items, d, disp.handled, act);
    case Recv(r) => ItemsMoreHandled(items, d, disp.handled, r, es);
    case Send => DeliveredEnds(items, disp, d, stopped, true, Lookup(items, disp, disp.phase.r.requestId).value, es);
    case Skip => DeliveredEnds(items, disp, d, stopped, false, Lookup(items, disp, disp.phase.r.requestId).value, es);
    case FinishOne(id) =>
      var x := Lookup(items, disp, id).value;
      FinishableItem(items, disp, d, stopped, id, x);
      OneFinished(items, d, disp.handled, es, x, disp.phase.last);
    case FailOne =>
      FailableItem(items, disp, d, stopped);
      OneFinished(items, d, disp.handled, es, disp.batch[disp.phase.count], disp.phase.error);
    case _ =>
  }

  lemma CallTells(error: string)
    ensures Tells(CallFinal(error), Reject(error))
  {
  }

  lemma EndTells(end: End)
    ensures Tells(EndFinal(end), EndStream(end))
  {
  }

  lemma OneFinished(items: seq<Item>, d: nat, handled: seq<Response>, es: seq<Act>, x: nat, e: Event)
    requires ItemsEnd(items, d, handled, es) && AllSane(items) && |es| == 1 && Tells(e, es[0])
    requires x < |items| && items[x].closes == 0 && items[x].closing == []
    ensures ItemsEnd(items[x := items[x].Finish(e)], d, handled, es)
  {
    hide ItemEnds, Tells;
    FinishedEnds(items[x], handled, es, e);
  }

  // ----------------------------------------------------------------- the whole system

  /** The collector dropped the batch at a shutdown: a cancellation. */
  ghost predicate DroppedSays(it: Item) {
    && (it.closes > 0 ==> it.closing != [])
    && forall i :: 0 <= i < |it.closing| ==> Says(it.closing[i], "STOP_CANCELLED", "cancelled", "")
  }

  ghost predicate NotDispatched(it: Item) {
    (it.at.Queued? ==> it.closing == [] && it.closes == 0) && (it.at.Collected? ==> DroppedSays(it))
  }

  ghost predicate Ended(s: State, steps: seq<Step>) {
    && (forall d: nat :: d >= |s.dispatchers| ==> Endings(steps, d) == [])
    && (forall d: nat :: d < |s.dispatchers| ==>
      && PhaseEnds(s.dispatchers[d], Endings(steps, d))
      && ItemsEnd(s.items, d, s.dispatchers[d].handled, Endings(steps, d)))
    && forall x :: 0 <= x < |s.items| ==> NotDispatched(s.items[x])
  }

  lemma EndingsSnoc(steps: seq<Step>, step: Step, d: nat)
    ensures Endings(steps + [step], d) ==
      if step.Dispatch? && step.d == d && IsEnding(step.act) then Endings(steps, d) + [step.act] else Endings(steps, d)
  {
    assert (steps + [step])[..|steps|] == steps;
  }

  lemma DispatchEnds(s: State, steps: seq<Step>, d: nat, act: Act)
    requires Inv(s) && Ended(s, steps) && DispatcherStep(s, d, act).Some?
    ensures Ended(DispatcherStep(s, d, act).value, steps + [Dispatch(d, act)])
  {
    hide DispatcherOk, ItemsEnd, PhaseEnds, NotDispatched, Advance, Endings, QueueOk, CollectorOk, AllSane, Busy, Batches, Iota;
    var disp := s.dispatchers[d];
    AdvanceEnds(s.items, disp, d, s.stopped, act, Endings(steps, d));
    AdvanceKeeps(s.items, disp, d, s.stopped, act);
    var move := Advance(s.items, disp, s.stopped, act).value;
    var s' := DispatcherStep(s, d, act).value;
    forall e: nat ensures Endings(steps + [Dispatch(d, act)], e) ==
      if e == d && IsEnding(act) then Endings(steps, e) + [act] else Endings(steps, e)
    {
      EndingsSnoc(steps, Dispatch(d, act), e);
    }
    forall e: nat | e < |s'.dispatchers| && e != d
      ensures ItemsEnd(s'.items, e, s'.dispatchers[e].handled, Endings(steps + [Dispatch(d, act)], e))
    {
      OthersEnd(s.items, move.items, Dispatched(d), e, s.dispatchers[e].handled, Endings(steps, e));
    }
    OthersNotDispatched(s.items, move.items, d);
  }

  lemma OthersEnd(items: seq<Item>, items': seq<Item>, place: Place, e: nat, handled: seq<Response>, es: seq<Act>)
    requires ItemsEnd(items, e, handled, es) && ChangedOnly(items, items', place) && place != Dispatched(e)
    ensures ItemsEnd(items', e, handled, es)
  {
    hide ItemEnds, Sane;
  }

  lemma OthersNotDispatched(items: seq<Item>, items': seq<Item>, d: nat)
    requires ChangedOnly(items, items', Dispatched(d)) && forall x :: 0 <= x < |items| ==> NotDispatched(items[x])
    ensures forall x :: 0 <= x < |items'| ==> NotDispatched(items'[x])
  {
    hide DroppedSays, Sane;
  }

  /** Items keep what they were sent, and only untouched ones are moved into a batch. */
  ghost predicate SameEnds(items: seq<Item>, items': seq<Item>, ds: seq<Dispatcher>) {
    && |items| <= |items'|
    && (forall x :: 0 <= x < |items'| ==> NotDispatched(items'[x]))
    && forall x, d: nat :: 0 <= x < |items'| && items'[x].at == Dispatched(d) ==>
      || Untouched(items'[x])
      || (x < |items| && items[x].at == Dispatched(d) && d < |ds| && items'[x].requestId == items[x].requestId
          && items'[x].routed == items[x].routed && items'[x].closing == items[x].closing && items'[x].closes == items[x].closes)
  }

  lemma SameEnded(s: State, s': State, steps: seq<Step>, step: Step)
    requires Ended(s, steps) && !step.Dispatch? && SameEnds(s.items, s'.items, s.dispatchers)
    requires |s.dispatchers| <= |s'.dispatchers| && s'.dispatchers[..|s.dispatchers|] == s.dispatchers
    requires forall d :: |s.dispatchers| <= d < |s'.dispatchers| ==> s'.dispatchers[d].phase.Calling?
    ensures Ended(s', steps + [step])
  {
    hide Endings, Tells, NotDispatched;
    forall d: nat ensures Endings(steps + [step], d) == Endings(steps, d) {
      EndingsSnoc(steps, step, d);
    }
    forall d: nat | d < |s'.dispatchers|
      ensures PhaseEnds(s'.dispatchers[d], Endings(steps, d)) && ItemsEnd(s'.items, d, s'.dispatchers[d].handled, Endings(steps, d))
    {
      if d < |s.dispatchers| {
        assert s'.dispatchers[d] == s.dispatchers[d];
        assert PhaseEnds(s.dispatchers[d], Endings(steps, d)) && ItemsEnd(s.items, d, s.dispatchers[d].handled, Endings(steps, d));
      }
    }
  }

  lemma StartEnds(s: State)
    requires Inv(s) && StartBatch(s).Some? && forall x :: 0 <= x < |s.items| ==> NotDispatched(s.items[x])
    requires forall x, d: nat :: 0 <= x < |s.items| && s.items[x].at == Dispatched(d) ==> d < |s.dispatchers|
    ensures SameEnds(s.items, StartBatch(s).value.items, s.dispatchers)
  {
    hide DispatchersOk, Busy, Batches, Iota, QueueOk, AllSane, BuildIndex, IdsOf, NotDispatched;
    var s' := StartBatch(s).value;
    forall j: nat | j < |s.collector.batch| ensures s.collector.batch[j] < |s.items| && Untouched(s.items[s.collector.batch[j]]) {
      CollectedItem(s.items, s.collector, j);
    }
    forall x | 0 <= x < |s'.items| ensures NotDispatched(s'.items[x]) {
      assert NotDispatched(s.items[x]);
      if x in s.collector.batch {
        DispatchedNow(s'.items[x]);
      }
    }
  }

  lemma DispatchedNow(it: Item)
    requires it.at.Dispatched?
    ensures NotDispatched(it)
  {
  }

  lemma CollectEnds(s: State, step: Step)
    requires Inv(s) && (step.First? || step.More?) && Collect(s, step).Some? && forall x :: 0 <= x < |s.items| ==> NotDispatched(s.items[x])
    requires forall x, d: nat :: 0 <= x < |s.items| && s.items[x].at == Dispatched(d) ==> d < |s.dispatchers|
    ensures SameEnds(s.items, Collect(s, step).value.items, s.dispatchers)
  {
    hide DispatchersOk, Busy, Batches, Iota, CollectorOk, AllSane;
    var s' := Collect(s, step).value;
    assert s.items[s.queue[0]].at == Queued && Untouched(s.items[s.queue[0]]);
  }

  lemma DropEnds(s: State)
    requires Inv(s) && DropNext(s).Some? && forall x :: 0 <= x < |s.items| ==> NotDispatched(s.items[x])
    requires forall x, d: nat :: 0 <= x < |s.items| && s.items[x].at == Dispatched(d) ==> d < |s.dispatchers|
    ensures SameEnds(s.items, DropNext(s).value.items, s.dispatchers)
  {
    hide DispatchersOk, Busy, Batches, Iota, QueueOk;
    if s.collector.count < |s.collector.batch| {
      var x := s.collector.batch[s.collector.count];
      assert CollectedOk(s.collector, s.collector.count, s.items[x]);
      assert Sane(s.items[x]);
    }
  }

  lemma DispatchedWhere(s: State)
    requires Inv(s)
    ensures forall x, d: nat :: 0 <= x < |s.items| && s.items[x].at == Dispatched(d) ==> d < |s.dispatchers|
  {
    hide Inv;
    forall x, d: nat | 0 <= x < |s.items| && s.items[x].at == Dispatched(d) ensures d < |s.dispatchers| {
      Placed(s, x);
    }
  }

  lemma NextEnds(s: State, steps: seq<Step>, step: Step)
    requires Inv(s) && Ended(s, steps) && Next(s, step).Some?
    ensures Ended(Next(s, step).value, steps + [step])
  {
    hide Inv, PhaseEnds, ItemsEnd, DispatcherStep, Collect, StartBatch, DropNext;
    var s' := Next(s, step).value;
    DispatchedWhere(s);
    match step
    case Dispatch(d, act) => DispatchEnds(s, steps, d, act);
    case First =>
      CollectEnds(s, step);
      CollectDispatchers(s, step);
      SameEnded(s, s', steps, step);
    case More =>
      CollectEnds(s, step);
      CollectDispatchers(s, step);
      SameEnded(s, s', steps, step);
    case Acquire =>
      StartEnds(s);
      StartDispatchers(s);
      SameEnded(s, s', steps, step);
    case DropOne =>
      DropEnds(s);
      DropDispatchers(s);
      SameEnded(s, s', steps, step);
    case _ => SameEnded(s, s', steps, step);
  }

  lemma CollectDispatchers(s: State, step: Step)
    requires (step.First? || step.More?) && Collect(s, step).Some?
    ensures Collect(s, step).value.dispatchers == s.dispatchers
  {
  }

  lemma StartDispatchers(s: State)
    requires StartBatch(s).Some?
    ensures var ds := StartBatch(s).value.dispatchers;
      |ds| == |s.dispatchers| + 1 && ds[..|s.dispatchers|] == s.dispatchers && ds[|s.dispatchers|].phase.Calling?
  {
  }

  lemma DropDispatchers(s: State)
    requires DropNext(s).Some?
    ensures DropNext(s).value.dispatchers == s.dispatchers
  {
  }

  lemma {:induction false} RunEnds(maxInFlight: int, maxBatchSize: int, steps: seq<Step>)
    requires Run(Init(maxInFlight, maxBatchSize), steps).Some?
    ensures Ended(Run(Init(maxInFlight, maxBatchSize), steps).value, steps)
  {
    hide Next, Inv;
    if steps == [] {
    } else {
      var before := steps[..|steps| - 1];
      RunEnds(maxInFlight, maxBatchSize, before);
      RunKeeps(maxInFlight, maxBatchSize, before);
      NextEnds(Run(Init(maxInFlight, maxBatchSize), before).value, before, steps[|steps| - 1]);
      assert steps == before + [steps[|steps| - 1]];
    }
  }

  /** In every reachable state: a dispatched item has from the scheduler itself at most the one
      final that its batch's only ending calls for, and if its channel is closed it has that, or
      the worker's final came, or the buffer may have been full; a collected item that was dropped
      has a cancellation; a queued one has nothing. */
  lemma OwnFinals(maxInFlight: int, maxBatchSize: int, steps: seq<Step>, s: State, x: nat)
    requires Run(Init(maxInFlight, maxBatchSize), steps) == Some(s) && x < |s.items|
    ensures |s.items[x].closing| <= 1
    ensures s.items[x].at.Queued? ==> s.items[x].closing == [] && s.items[x].closes == 0
    ensures s.items[x].at.Collected? ==>
      && (s.items[x].closes > 0 ==> |s.items[x].closing| == 1)
      && (s.items[x].closing != [] ==> Says(s.items[x].closing[0], "STOP_CANCELLED", "cancelled", ""))
    ensures s.items[x].at.Dispatched? ==> s.items[x].at.d < |s.dispatchers| && x in s.dispatchers[s.items[x].at.d].batch
    ensures s.items[x].at.Dispatched? ==>
      var d := s.items[x].at.d;
      && (s.items[x].closing != [] ==> |Endings(steps, d)| == 1 && Tells(s.items[x].closing[0], Endings(steps, d)[0]))
      && (s.items[x].closes > 0 && s.items[x].closing == [] ==>
          |s.items[x].routed| >= EVENTS_CAPACITY || SentFinal(Received(steps, d), s.items[x].requestId))
  {
    hide Run, Says, SentFinal, Inv, PhaseEnds;
    RunEnds(maxInFlight, maxBatchSize, steps);
    RunKeeps(maxInFlight, maxBatchSize, steps);
    Placed(s, x);
    ChannelsAreClean(maxInFlight, maxBatchSize, steps, x);
    assert NotDispatched(s.items[x]);
    if s.items[x].at.Dispatched? {
      var d := s.items[x].at.d;
      assert s.items[x].at == Dispatched(d);
      HandledIsReceived(maxInFlight, maxBatchSize, steps);
      assert ItemEnds(s.items[x], s.dispatchers[d].handled, Endings(steps, d));
      assert forall i :: 0 <= i < |s.items[x].closing| ==> Tells(s.items[x].closing[i], Endings(steps, d)[0]);
      StillSent(s.dispatchers[d].handled, Pending(s.dispatchers[d]), s.items[x].requestId);
    }
  }

  lemma StillSent(rs: seq<Response>, more: seq<Response>, id: string)
    ensures SentFinal(rs, id) ==> SentFinal(rs + more, id)
  {
    if SentFinal(rs, id) {
      var k :| 0 <= k < |rs| && rs[k].requestId == id && rs[k].kind.FinalKind?;
      assert (rs + more)[k] == rs[k];
    }
  }

  // ------------------------------------------------------------------ cancelled batches

  /** The RPC of a batch is aborted only at a shutdown or when all its requests are cancelled. */
  ghost predicate AbortsExplained(s: State) {
    forall d :: 0 <= d < |s.dispatchers| && s.dispatchers[d].aborted ==> s.stopped || AllCancelled(s.items, s.dispatchers[d].batch)
  }

  lemma StaysCancelled(items: seq<Item>, items': seq<Item>, batch: seq<nat>)
    requires AllCancelled(items, batch) && |items| <= |items'|
    requires forall x :: 0 <= x < |items| && items[x].cancelled ==> items'[x].cancelled
    ensures AllCancelled(items', batch)
  {
  }

  lemma AdvanceAborts(items: seq<Item>, disp: Dispatcher, stopped: bool, act: Act)
    requires Advance(items, disp, stopped, act).Some?
    ensures
      var move := Advance(items, disp, stopped, act).value;
      && |move.items| == |items| && (forall x :: 0 <= x < |items| ==> move.items[x].cancelled == items[x].cancelled)
      && move.disp.batch == disp.batch && (disp.aborted ==> move.disp.aborted)
      && (move.disp.aborted ==> disp.aborted || stopped || AllCancelled(items, disp.batch))
  {
    hide AllCancelled, ToEvent;
  }

  lemma NextSoftens(s: State, step: Step)
    requires Next(s, step).Some?
    ensures
      var s' := Next(s, step).value;
      && |s.items| <= |s'.items| && (s.stopped ==> s'.stopped)
      && forall x :: 0 <= x < |s.items| && s.items[x].cancelled ==> s'.items[x].cancelled
  {
    hide Advance, BuildIndex, IdsOf;
    if step.Dispatch? {
      AdvanceAborts(s.items, s.dispatchers[step.d], s.stopped, step.act);
    }
  }

  lemma NextAborts(s: State, step: Step)
    requires AbortsExplained(s) && Next(s, step).Some?
    ensures AbortsExplained(Next(s, step).value)
  {
    hide Advance, BuildIndex, IdsOf, AllCancelled, MovedTo;
    var s' := Next(s, step).value;
    NextSoftens(s, step);
    if step.Dispatch? {
      AdvanceAborts(s.items, s.dispatchers[step.d], s.stopped, step.act);
    }
    forall d | 0 <= d < |s'.dispatchers| && s'.dispatchers[d].aborted && !s'.stopped
      ensures AllCancelled(s'.items, s'.dispatchers[d].batch)
    {
      StaysCancelled(s.items, s'.items, s'.dispatchers[d].batch);
    }
  }

  lemma {:induction false} RunAborts(maxInFlight: int, maxBatchSize: int, steps: seq<Step>)
    requires Run(Init(maxInFlight, maxBatchSize), steps).Some?
    ensures AbortsExplained(Run(Init(maxInFlight, maxBatchSize), steps).value)
  {
    hide Next, AbortsExplained;
    if steps == [] {
      NoAborts(Init(maxInFlight, maxBatchSize));
    } else {
      RunAborts(maxInFlight, maxBatchSize, steps[..|steps| - 1]);
      NextAborts(Run(Init(maxInFlight, maxBatchSize), steps[..|steps| - 1]).value, steps[|steps| - 1]);
    }
  }

  lemma NoAborts(s: State)
    requires s.dispatchers == []
    ensures AbortsExplained(s)
  {
  }

  /** A batch ends at most once; it ends as cancelled only at a shutdown or when every one of its
      requests is cancelled. */
  lemma EndsOnce(maxInFlight: int, maxBatchSize: int, steps: seq<Step>, s: State, d: nat)
    requires Run(Init(maxInFlight, maxBatchSize), steps) == Some(s) && d < |s.dispatchers|
    ensures |Endings(steps, d)| <= 1
    ensures Endings(steps, d) == [] <==> var p := s.dispatchers[d].phase; p.Calling? || p.Streaming? || p.Delivering?
    ensures Endings(steps, d) == [EndStream(Cancelled)] ==> s.stopped || AllCancelled(s.items, s.dispatchers[d].batch)
  {
    hide Run, Endings, Tells, ItemsEnd;
    RunEnds(maxInFlight, maxBatchSize, steps);
    RunAborts(maxInFlight, maxBatchSize, steps);
    assert PhaseEnds(s.dispatchers[d], Endings(steps, d));
  }
}
