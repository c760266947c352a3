/** What every step of the batch scheduler keeps: Batch Slots, exclusive ownership of the
    items, in-order routing, and one close per item. */
module BatchRouting {
  import opened Wrappers
  import opened BatchSchedulers

  // ------------------------------------------------------------- what a request is owed

  /** The worker's events for one request id, in order. */
  function ForId(rs: seq<Response>, id: string): seq<Event> {
    if rs == [] then [] else
      var last, rest := rs[|rs| - 1], ForId(rs[..|rs| - 1], id);
      if last.requestId == id then rest + [ToEvent(last)] else rest
  }

  predicate HasFinal(es: seq<Event>) {
    exists i :: 0 <= i < |es| && es[i].kind.FinalKind?
  }

  /** Up to and including the first final. */
  function UpToFinal(es: seq<Event>): (r: seq<Event>)
  {
    if es == [] then [] else if es[0].kind.FinalKind? then [es[0]] else [es[0]] + UpToFinal(es[1..])
  }

  lemma {:induction false} UpToFinalSnoc(es: seq<Event>, e: Event)
    ensures HasFinal(es) ==> UpToFinal(es + [e]) == UpToFinal(es)
    ensures !HasFinal(es) ==> UpToFinal(es) == es && UpToFinal(es + [e]) == es + [e]
  {
    if es == [] {
      assert [e][1..] == [];
    } else {
      UpToFinalSnoc(es[1..], e);
      assert (es + [e])[0] == es[0] && (es + [e])[1..] == es[1..] + [e];
      if !es[0].kind.FinalKind? && HasFinal(es) {
        var i :| 0 <= i < |es| && es[i].kind.FinalKind?;
        assert es[1..][i - 1] == es[i];
      }
    }
  }

  /** `a` is `b` with some events left out. */
  predicate Subsequence(a: seq<Event>, b: seq<Event>)
    decreases |b|
  {
    a == [] || (b != [] && (Subsequence(a, b[..|b| - 1]) || (a[|a| - 1] == b[|b| - 1] && Subsequence(a[..|a| - 1], b[..|b| - 1]))))
  }

  lemma SubsequenceSnoc(a: seq<Event>, b: seq<Event>, e: Event)
    requires Subsequence(a, b)
    ensures Subsequence(a, b + [e]) && Subsequence(a + [e], b + [e])
  {
    assert (b + [e])[..|b|] == b && (a + [e])[..|a|] == a;
  }

  // ------------------------------------------------------------------ state of one item

  predicate Untouched(it: Item) {
    it.routed == [] && it.closing == [] && it.closes == 0
  }

  predicate Ending(closing: seq<Event>) {
    |closing| <= 1 && forall i :: 0 <= i < |closing| ==> closing[i].kind.FinalKind?
  }

  predicate Failed(it: Item) {
    it.routed == [] && it.closes == 1 && Ending(it.closing)
  }

  /** Cancellation and shutdown are the only reasons to leave an event out. */
  predicate Given(it: Item, owed: seq<Event>, stopped: bool) {
    Subsequence(it.routed, owed) && (!it.cancelled && !stopped ==> it.routed == owed)
  }

  /** An item the worker's stream is routed to. */
  predicate Routed(disp: Dispatcher, id: string, it: Item, stopped: bool) {
    var es := ForId(disp.handled, id);
    && Given(it, UpToFinal(es), stopped)
    && if id in disp.index then it.closes == 0 && it.closing == [] && !HasFinal(es)
       else it.closes == 1 && Ending(it.closing) && if HasFinal(es) then it.closing == [] else disp.phase.Finishing? || disp.phase.Done?
  }

  ghost predicate PositionOk(disp: Dispatcher, j: nat, it: Item, stopped: bool)
    requires j < |disp.ids|
  {
    if disp.phase.Calling? then Untouched(it)
    else if disp.phase.Failing? then (if j < disp.phase.count then Failed(it) else Untouched(it))
    else if disp.phase == Done(true) then Failed(it)
    else if Last(disp.ids, j) then Routed(disp, disp.ids[j], it, stopped)
    else Untouched(it)
  }

  predicate Sane(it: Item) {
    it.late == 0 && it.taken <= |it.Sent()| && |it.Sent()| - it.taken <= EVENTS_CAPACITY
  }

  // --------------------------------------------------------------- state of one batch

  predicate PhaseOk(disp: Dispatcher) {
    match disp.phase
    case Delivering(r) => r.requestId in disp.index
    case Finishing(e) => e.kind.FinalKind?
    case Failing(count, e) => count <= |disp.batch| && e.kind.FinalKind?
    case Done(rejected) => !rejected ==> disp.index == map[]
    case _ => true
  }

  ghost predicate Shape(disp: Dispatcher) {
    && |disp.ids| == |disp.batch| >= 1 && NoDup(disp.batch) && PhaseOk(disp)
    && (disp.phase.Calling? ==> disp.handled == [] && forall j :: 0 <= j < |disp.ids| ==> disp.ids[j] in disp.index)
    && forall id :: id in disp.index ==> disp.index[id] < |disp.ids| && disp.ids[disp.index[id]] == id && Last(disp.ids, disp.index[id])
  }

  ghost predicate DispatcherOk(items: seq<Item>, disp: Dispatcher, d: nat, stopped: bool) {
    && Shape(disp)
    && forall j :: 0 <= j < |disp.batch| ==>
      && disp.batch[j] < |items| && items[disp.batch[j]].at == Dispatched(d)
      && items[disp.batch[j]].requestId == disp.ids[j] && PositionOk(disp, j, items[disp.batch[j]], stopped)
  }

  /** Only items at `place` changed, and they stayed there. */
  ghost predicate ChangedOnly(items: seq<Item>, items': seq<Item>, place: Place) {
    && |items'| == |items|
    && forall x :: 0 <= x < |items| ==>
      && items'[x].at == items[x].at && items'[x].requestId == items[x].requestId
      && (items[x].at != place ==> items'[x] == items[x]) && (Sane(items[x]) ==> Sane(items'[x]))
  }

  // ----------------------------------------------------------------- dispatcher steps

  lemma SameLast(ids: seq<string>, j: nat, k: nat)
    requires Last(ids, j) && Last(ids, k) && ids[j] == ids[k]
    ensures j == k
  {
  }

  lemma ForIdSnoc(rs: seq<Response>, r: Response, id: string)
    ensures ForId(rs + [r], id) == if r.requestId == id then ForId(rs, id) + [ToEvent(r)] else ForId(rs, id)
  {
    assert (rs + [r])[..|rs|] == rs;
  }

  lemma HasFinalSnoc(es: seq<Event>, e: Event)
    ensures HasFinal(es + [e]) <==> HasFinal(es) || e.kind.FinalKind?
  {
    assert (es + [e])[|es|] == e;
    if HasFinal(es) {
      var i :| 0 <= i < |es| && es[i].kind.FinalKind?;
      assert (es + [e])[i] == es[i];
    }
  }

  /** A response for an id that is no longer routed changes nothing for any item. */
  lemma IgnoredResponse(disp: Dispatcher, r: Response, id: string, it: Item, stopped: bool)
    requires Routed(disp, id, it, stopped) && disp.phase.Streaming? && (id == r.requestId ==> id !in disp.index)
    ensures Routed(disp.(handled := disp.handled + [r]), id, it, stopped)
  {
    hide UpToFinal, ForId, HasFinal;
    ForIdSnoc(disp.handled, r, id);
    UpToFinalSnoc(ForId(disp.handled, id), ToEvent(r));
    HasFinalSnoc(ForId(disp.handled, id), ToEvent(r));
  }

  /** The send (or the skip) keeps the routed item in step with what it is owed. */
  lemma DeliveredResponse(disp: Dispatcher, r: Response, it: Item, stopped: bool, sent: bool)
    requires Routed(disp, r.requestId, it, stopped) && r.requestId in disp.index
    requires sent || it.cancelled || stopped
    ensures
      var it1 := if sent then it.Route(ToEvent(r)) else it;
      var index := if r.kind.FinalKind? then disp.index - {r.requestId} else disp.index;
      Routed(disp.(phase := Streaming, handled := disp.handled + [r], index := index), r.requestId,
             if r.kind.FinalKind? then it1.Close() else it1, stopped)
  {
    hide UpToFinal, ForId, HasFinal, Subsequence;
    ForIdSnoc(disp.handled, r, r.requestId);
    var es := ForId(disp.handled, r.requestId);
    UpToFinalSnoc(es, ToEvent(r));
    HasFinalSnoc(es, ToEvent(r));
    SubsequenceSnoc(it.routed, es, ToEvent(r));
  }

  /** Glue: one item of the batch changed and every position is in order. */
  lemma BatchKeeps(items: seq<Item>, disp: Dispatcher, disp': Dispatcher, d: nat, stopped: bool, jx: nat, it: Item)
    requires DispatcherOk(items, disp, d, stopped) && jx < |disp.batch|
    requires Shape(disp') && disp'.batch == disp.batch && disp'.ids == disp.ids
    requires it.at == Dispatched(d) && it.requestId == disp.ids[jx] && (Sane(items[disp.batch[jx]]) ==> Sane(it))
    requires PositionOk(disp', jx, it, stopped)
    requires forall j :: 0 <= j < |disp.batch| && j != jx ==> PositionOk(disp', j, items[disp.batch[j]], stopped)
    ensures DispatcherOk(items[disp.batch[jx] := it], disp', d, stopped)
    ensures ChangedOnly(items, items[disp.batch[jx] := it], Dispatched(d))
  {
    hide PositionOk, Sane;
    assert NoDup(disp.batch);
  }

  lemma ShapeWithout(disp: Dispatcher, disp': Dispatcher, id: string)
    requires Shape(disp) && disp'.batch == disp.batch && disp'.ids == disp.ids && PhaseOk(disp') && !disp'.phase.Calling?
    requires disp'.index == disp.index || disp'.index == disp.index - {id}
    ensures Shape(disp')
  {
  }

  /** Removing an id from the index touches no other item's obligations. */
  lemma OthersAfterDelivery(items: seq<Item>, disp: Dispatcher, disp': Dispatcher, d: nat, stopped: bool, r: Response)
    requires DispatcherOk(items, disp, d, stopped) && disp.phase == Delivering(r)
    requires disp'.ids == disp.ids && disp'.phase.Streaming? && disp'.handled == disp.handled + [r]
    requires disp'.index == disp.index || disp'.index == disp.index - {r.requestId}
    ensures forall j :: 0 <= j < |disp.batch| && j != disp.index[r.requestId] ==> PositionOk(disp', j, items[disp.batch[j]], stopped)
  {
    hide Routed, Untouched, Failed;
    forall j | 0 <= j < |disp.batch| && j != disp.index[r.requestId] ensures PositionOk(disp', j, items[disp.batch[j]], stopped) {
      assert PositionOk(disp, j, items[disp.batch[j]], stopped);
      if Last(disp.ids, j) {
        if disp.ids[j] == r.requestId {
          SameLast(disp.ids, j, disp.index[r.requestId]);
        }
        OtherResponse(disp, disp', r, disp.ids[j], items[disp.batch[j]], stopped);
      }
    }
  }

  lemma DeliveredKeeps(items: seq<Item>, disp: Dispatcher, d: nat, stopped: bool, sent: bool, x: nat)
    requires DispatcherOk(items, disp, d, stopped) && disp.phase.Delivering?
    requires Lookup(items, disp, disp.phase.r.requestId) == Some(x)
    requires if sent then items[x].Room() else items[x].cancelled || stopped
    ensures
      var items1 := if sent then items[x := items[x].Route(ToEvent(disp.phase.r))] else items;
      var move := Delivered(items1, disp, disp.phase.r, x);
      DispatcherOk(move.items, move.disp, d, stopped) && ChangedOnly(items, move.items, Dispatched(d))
  {
    hide Routed, Untouched, Failed, DispatcherOk, ChangedOnly, NoDup, Sane;
    var r := disp.phase.r;
    var it, jx := DeliveringItem(items, disp, d, stopped, x);
    DeliveredResponse(disp, r, it, stopped, sent);
    var it1 := if sent then it.Route(ToEvent(r)) else it;
    var it2 := if r.kind.FinalKind? then it1.Close() else it1;
    var items1 := if sent then items[x := it1] else items;
    var move := Delivered(items1, disp, r, x);
    ShapeWithout(disp, move.disp, r.requestId);
    OthersAfterDelivery(items, disp, move.disp, d, stopped, r);
    assert Sane(it) ==> Sane(it2) by { StaysSane(it, it2, r, sent); }
    BatchKeeps(items, disp, move.disp, d, stopped, jx, it2);
    assert move.items == items[x := it2];
  }

  lemma StaysSane(it: Item, it2: Item, r: Response, sent: bool)
    requires it.closes == 0 && it.closing == [] && (sent ==> it.Room())
    requires it2 == (var it1 := if sent then it.Route(ToEvent(r)) else it; if r.kind.FinalKind? then it1.Close() else it1)
    ensures Sane(it) ==> Sane(it2)
  {
  }

  lemma DeliveringItem(items: seq<Item>, disp: Dispatcher, d: nat, stopped: bool, x: nat) returns (it: Item, jx: nat)
    requires DispatcherOk(items, disp, d, stopped) && disp.phase.Delivering?
    requires Lookup(items, disp, disp.phase.r.requestId) == Some(x)
    ensures jx == disp.index[disp.phase.r.requestId] && jx < |disp.batch| && x == disp.batch[jx] && it == items[x]
    ensures Shape(disp) && Last(disp.ids, jx) && disp.ids[jx] == disp.phase.r.requestId
    ensures it.closes == 0 && it.closing == [] && it.at == Dispatched(d) && it.requestId == disp.ids[jx]
    ensures Routed(disp, disp.phase.r.requestId, it, stopped)
  {
    jx := disp.index[disp.phase.r.requestId];
    it := items[x];
    assert PositionOk(disp, jx, items[disp.batch[jx]], stopped);
  }

  /** A response for another id changes nothing. */
  lemma OtherResponse(disp: Dispatcher, disp': Dispatcher, r: Response, id: string, it: Item, stopped: bool)
    requires Routed(disp, id, it, stopped) && id != r.requestId && disp.phase.Delivering?
    requires disp'.handled == disp.handled + [r] && (id in disp'.index <==> id in disp.index)
    ensures Routed(disp', id, it, stopped)
  {
    ForIdSnoc(disp.handled, r, id);
  }

  lemma RecvKeeps(items: seq<Item>, disp: Dispatcher, d: nat, stopped: bool, r: Response)
    requires DispatcherOk(items, disp, d, stopped) && disp.phase.Streaming? && r.requestId !in disp.index
    ensures DispatcherOk(items, disp.(handled := disp.handled + [r]), d, stopped)
  {
    hide Routed, Untouched, Failed;
    forall j | 0 <= j < |disp.batch|
      ensures PositionOk(disp.(handled := disp.handled + [r]), j, items[disp.batch[j]], stopped)
    {
      assert PositionOk(disp, j, items[disp.batch[j]], stopped);
      if Last(disp.ids, j) {
        IgnoredResponse(disp, r, disp.ids[j], items[disp.batch[j]], stopped);
      }
    }
  }

  /** `finishAll` closes a routed item, with a final of its own only when the worker sent none. */
  lemma FinishedItem(disp: Dispatcher, id: string, it: Item, stopped: bool)
    requires Routed(disp, id, it, stopped) && id in disp.index && disp.phase.Finishing? && disp.phase.last.kind.FinalKind?
    ensures Routed(disp.(index := disp.index - {id}), id, it.Finish(disp.phase.last), stopped)
    ensures Sane(it) ==> Sane(it.Finish(disp.phase.last))
  {
    hide UpToFinal, ForId, HasFinal, Subsequence;
  }

  lemma FinishOneKeeps(items: seq<Item>, disp: Dispatcher, d: nat, stopped: bool, id: string, x: nat)
    requires DispatcherOk(items, disp, d, stopped) && disp.phase.Finishing? && Lookup(items, disp, id) == Some(x)
    ensures
      var items' := items[x := items[x].Finish(disp.phase.last)];
      DispatcherOk(items', disp.(index := disp.index - {id}), d, stopped) && ChangedOnly(items, items', Dispatched(d))
  {
    hide UpToFinal, ForId, HasFinal, Subsequence, ChangedOnly, NoDup, Sane, Given;
    var jx := disp.index[id];
    var disp' := disp.(index := disp.index - {id});
    assert PositionOk(disp, jx, items[x], stopped);
    FinishedItem(disp, id, items[x], stopped);
    ShapeWithout(disp, disp', id);
    forall j | 0 <= j < |disp.batch| && j != jx ensures PositionOk(disp', j, items[disp.batch[j]], stopped) {
      assert PositionOk(disp, j, items[disp.batch[j]], stopped);
      if Last(disp.ids, j) && disp.ids[j] == id {
        SameLast(disp.ids, j, jx);
      }
    }
    BatchKeeps(items, disp, disp', d, stopped, jx, items[x].Finish(disp.phase.last));
  }

  lemma FailOneKeeps(items: seq<Item>, disp: Dispatcher, d: nat, stopped: bool)
    requires DispatcherOk(items, disp, d, stopped) && disp.phase.Failing? && disp.phase.count < |disp.batch|
    ensures
      var x := disp.batch[disp.phase.count];
      var items' := items[x := items[x].Finish(disp.phase.error)];
      && DispatcherOk(items', disp.(phase := Failing(disp.phase.count + 1, disp.phase.error)), d, stopped)
      && ChangedOnly(items, items', Dispatched(d))
  {
    hide ChangedOnly, NoDup, Routed, Last;
    var c := disp.phase.count;
    var x := disp.batch[c];
    var disp' := disp.(phase := Failing(c + 1, disp.phase.error));
    assert PositionOk(disp, c, items[x], stopped);
    forall j | 0 <= j < |disp.batch| && j != c ensures PositionOk(disp', j, items[disp.batch[j]], stopped) {
      assert PositionOk(disp, j, items[disp.batch[j]], stopped);
    }
    BatchKeeps(items, disp, disp', d, stopped, c, items[x].Finish(disp.phase.error));
  }

  /** Only the phase or the abort flag moves; the items' obligations carry over. */
  lemma PhaseKeeps(items: seq<Item>, disp: Dispatcher, disp': Dispatcher, d: nat, stopped: bool)
    requires DispatcherOk(items, disp, d, stopped) && disp' == disp.(phase := disp'.phase, aborted := disp'.aborted) && PhaseOk(disp')
    requires
      || disp'.phase == disp.phase
      || (disp.phase.Calling? && (disp'.phase.Streaming? || (disp'.phase.Failing? && disp'.phase.count == 0)))
      || (disp.phase.Streaming? && (disp'.phase.Delivering? || disp'.phase.Finishing?))
      || (disp.phase.Finishing? && disp'.phase == Done(false))
      || (disp.phase.Failing? && disp.phase.count == |disp.batch| && disp'.phase == Done(true))
    ensures DispatcherOk(items, disp', d, stopped)
  {
    hide UpToFinal, Subsequence;
    forall j | 0 <= j < |disp.batch| ensures PositionOk(disp', j, items[disp.batch[j]], stopped) {
      assert PositionOk(disp, j, items[disp.batch[j]], stopped);
      if disp.phase.Calling? && disp'.phase.Streaming? {
        NothingOwed(items[disp.batch[j]], stopped);
      }
    }
  }

  lemma NothingOwed(it: Item, stopped: bool)
    requires Untouched(it)
    ensures Given(it, UpToFinal([]), stopped)
  {
  }

  /** Every dispatcher step keeps its own batch in order and leaves all other items alone. */
  lemma AdvanceKeeps(items: seq<Item>, disp: Dispatcher, d: nat, stopped: bool, act: Act)
    requires DispatcherOk(items, disp, d, stopped) && Advance(items, disp, stopped, act).Some?
    ensures
      var move := Advance(items, disp, stopped, act).value;
      && DispatcherOk(move.items, move.disp, d, stopped) && ChangedOnly(items, move.items, Dispatched(d))
      && move.disp.batch == disp.batch && !disp.phase.Done? && (move.disp.phase.Done? <==> act.Leave?)
  {
    hide PositionOk, ChangedOnly, NoDup, AllCancelled;
    Unchanged(items, Dispatched(d));
    var move := Advance(items, disp, stopped, act).value;
    match act
    case Recv(r) =>
      if Lookup(items, disp, r.requestId).None? {
        RecvKeeps(items, disp, d, stopped, r);
      } else {
        PhaseKeeps(items, disp, move.disp, d, stopped);
      }
    case Send => DeliveredKeeps(items, disp, d, stopped, true, Lookup(items, disp, disp.phase.r.requestId).value);
    case Skip => DeliveredKeeps(items, disp, d, stopped, false, Lookup(items, disp, disp.phase.r.requestId).value);
    case FinishOne(id) => FinishOneKeeps(items, disp, d, stopped, id, Lookup(items, disp, id).value);
    case FailOne => FailOneKeeps(items, disp, d, stopped);
    case _ => PhaseKeeps(items, disp, move.disp, d, stopped);
  }

  lemma Unchanged(items: seq<Item>, place: Place)
    ensures ChangedOnly(items, items, place)
  {
  }

  // ------------------------------------------------------------------ the whole system

  /** Batches not yet done: each holds one Batch Slot. */
  function Busy(ds: seq<Dispatcher>): nat {
    if ds == [] then 0 else Busy(ds[..|ds| - 1]) + if ds[|ds| - 1].phase.Done? then 0 else 1
  }

  function Batches(ds: seq<Dispatcher>): seq<nat> {
    if ds == [] then [] else Batches(ds[..|ds| - 1]) + ds[|ds| - 1].batch
  }

  function Iota(n: nat): (r: seq<nat>)
    ensures |r| == n && forall i :: 0 <= i < n ==> r[i] == i
  {
    seq(n, i requires 0 <= i < n => i)
  }

  /** Every accepted item, dispatched ones first. */
  function AcceptedItems(s: State): seq<nat> {
    Batches(s.dispatchers) + s.collector.Batch() + s.queue
  }

  ghost predicate QueueOk(items: seq<Item>, queue: seq<nat>) {
    && |queue| <= SUBMIT_CAPACITY && NoDup(queue)
    && forall j :: 0 <= j < |queue| ==> queue[j] < |items| && items[queue[j]].at == Queued && Untouched(items[queue[j]])
  }

  predicate CollectedOk(c: Collector, j: nat, it: Item) {
    if c.Returned? || (c.Dropping? && j < c.count) then Failed(it) else Untouched(it)
  }

  ghost predicate CollectorOk(items: seq<Item>, c: Collector) {
    && NoDup(c.Batch()) && (c.Collecting? || c.Acquiring? ==> |c.batch| >= 1) && (c.Dropping? ==> c.count <= |c.batch|)
    && forall j :: 0 <= j < |c.Batch()| ==>
      c.Batch()[j] < |items| && items[c.Batch()[j]].at == Collected && CollectedOk(c, j, items[c.Batch()[j]])
  }

  ghost predicate DispatchersOk(items: seq<Item>, ds: seq<Dispatcher>, stopped: bool) {
    forall d :: 0 <= d < |ds| ==> DispatcherOk(items, ds[d], d, stopped)
  }

  ghost predicate SizesOk(s: State) {
    |s.collector.Batch()| <= Max(1, s.maxBatchSize) && forall d :: 0 <= d < |s.dispatchers| ==> |s.dispatchers[d].batch| <= Max(1, s.maxBatchSize)
  }

  ghost predicate AllSane(items: seq<Item>) {
    forall x :: 0 <= x < |items| ==> Sane(items[x])
  }

  ghost predicate Inv(s: State) {
    && s.slots == Busy(s.dispatchers) <= s.maxInFlight && s.maxInFlight >= 1
    && QueueOk(s.items, s.queue) && CollectorOk(s.items, s.collector) && DispatchersOk(s.items, s.dispatchers, s.stopped)
    && AllSane(s.items) && AcceptedItems(s) == Iota(|s.items|) && SizesOk(s)
  }

  // ------------------------------------------------------------------- frame lemmas

  lemma QueueFrame(items: seq<Item>, items': seq<Item>, queue: seq<nat>, place: Place)
    requires QueueOk(items, queue) && ChangedOnly(items, items', place) && place != Queued
    ensures QueueOk(items', queue)
  {
    hide Sane, NoDup;
  }

  lemma CollectorFrame(items: seq<Item>, items': seq<Item>, c: Collector, place: Place)
    requires CollectorOk(items, c) && ChangedOnly(items, items', place) && place != Collected
    ensures CollectorOk(items', c)
  {
    hide Sane, NoDup, CollectedOk;
  }

  lemma DispatcherFrame(items: seq<Item>, items': seq<Item>, disp: Dispatcher, d: nat, stopped: bool)
    requires DispatcherOk(items, disp, d, stopped) && |items| <= |items'|
    requires forall x :: 0 <= x < |items| && items[x].at == Dispatched(d) ==> items'[x] == items[x]
    ensures DispatcherOk(items', disp, d, stopped)
  {
    hide PositionOk, Shape;
  }

  lemma DispatchersFrame(items: seq<Item>, items': seq<Item>, ds: seq<Dispatcher>, stopped: bool)
    requires DispatchersOk(items, ds, stopped) && |items| <= |items'|
    requires forall x :: 0 <= x < |items| && items[x].at.Dispatched? ==> items'[x] == items[x]
    ensures DispatchersOk(items', ds, stopped)
  {
    hide DispatcherOk;
    forall d | 0 <= d < |ds| ensures DispatcherOk(items', ds[d], d, stopped) {
      DispatcherFrame(items, items', ds[d], d, stopped);
    }
  }

  lemma SaneFrame(items: seq<Item>, items': seq<Item>, place: Place)
    requires AllSane(items) && ChangedOnly(items, items', place)
    ensures AllSane(items')
  {
    hide Sane;
  }

  lemma {:induction false} BusyUpdate(ds: seq<Dispatcher>, d: nat, disp: Dispatcher)
    requires d < |ds|
    ensures Busy(ds[d := disp]) == Busy(ds) - (if ds[d].phase.Done? then 0 else 1) + if disp.phase.Done? then 0 else 1
    ensures !ds[d].phase.Done? ==> Busy(ds) >= 1
  {
    var n := |ds| - 1;
    if d == n {
      assert ds[d := disp][..n] == ds[..n];
    } else {
      BusyUpdate(ds[..n], d, disp);
      assert ds[d := disp][..n] == ds[..n][d := disp];
    }
  }

  lemma {:induction false} BatchesUpdate(ds: seq<Dispatcher>, d: nat, disp: Dispatcher)
    requires d < |ds| && disp.batch == ds[d].batch
    ensures Batches(ds[d := disp]) == Batches(ds)
  {
    var n := |ds| - 1;
    if d == n {
      assert ds[d := disp][..n] == ds[..n];
    } else {
      BatchesUpdate(ds[..n], d, disp);
      assert ds[d := disp][..n] == ds[..n][d := disp];
    }
  }

  lemma BatchesSnoc(ds: seq<Dispatcher>, disp: Dispatcher)
    ensures Batches(ds + [disp]) == Batches(ds) + disp.batch
    ensures Busy(ds + [disp]) == Busy(ds) + if disp.phase.Done? then 0 else 1
  {
    assert (ds + [disp])[..|ds|] == ds;
  }

  // --------------------------------------------------------------------- each step

  lemma DispatchKeeps(s: State, d: nat, act: Act)
    requires Inv(s) && DispatcherStep(s, d, act).Some?
    ensures Inv(DispatcherStep(s, d, act).value)
  {
    hide QueueOk, CollectorOk, DispatcherOk, ChangedOnly, AllSane, Busy, Batches, Advance, Iota;
    var disp := s.dispatchers[d];
    AdvanceKeeps(s.items, disp, d, s.stopped, act);
    var move := Advance(s.items, disp, s.stopped, act).value;
    QueueFrame(s.items, move.items, s.queue, Dispatched(d));
    CollectorFrame(s.items, move.items, s.collector, Dispatched(d));
    SaneFrame(s.items, move.items, Dispatched(d));
    BusyUpdate(s.dispatchers, d, move.disp);
    BatchesUpdate(s.dispatchers, d, move.disp);
    OtherDispatchers(s.items, move.items, s.dispatchers, d, move.disp, s.stopped);
    SameLength(s.items, move.items, Dispatched(d));
  }

  lemma SameLength(items: seq<Item>, items': seq<Item>, place: Place)
    requires ChangedOnly(items, items', place)
    ensures |items'| == |items|
  {
  }

  lemma OtherDispatchers(items: seq<Item>, items': seq<Item>, ds: seq<Dispatcher>, d: nat, disp: Dispatcher, stopped: bool)
    requires DispatchersOk(items, ds, stopped) && d < |ds| && ChangedOnly(items, items', Dispatched(d))
    requires DispatcherOk(items', disp, d, stopped)
    ensures DispatchersOk(items', ds[d := disp], stopped)
  {
    hide DispatcherOk;
    forall e | 0 <= e < |ds| && e != d ensures DispatcherOk(items', ds[e], e, stopped) {
      DispatcherFrame(items, items', ds[e], e, stopped);
    }
  }

  lemma SubmitKeeps(s: State, requestId: string, outcome: Outcome)
    requires Inv(s) && Submit(s, requestId, outcome).Some?
    ensures Inv(Submit(s, requestId, outcome).value)
  {
    hide DispatchersOk, Busy, Batches;
    var s' := Submit(s, requestId, outcome).value;
    if outcome.Accepted? {
      DispatchersFrame(s.items, s'.items, s.dispatchers, s.stopped);
      assert Iota(|s'.items|) == Iota(|s.items|) + [|s.items|];
      assert AcceptedItems(s') == AcceptedItems(s) + [|s.items|];
    }
  }

  /** The head of the queue moves to the collector. */
  lemma HeadLeaves(items: seq<Item>, queue: seq<nat>)
    requires QueueOk(items, queue) && queue != []
    ensures QueueOk(MovedTo(items, [queue[0]], Collected), queue[1..])
    ensures AllSane(items) ==> AllSane(MovedTo(items, [queue[0]], Collected))
  {
    hide Sane, Untouched;
    var items' := MovedTo(items, [queue[0]], Collected);
    assert forall j :: 1 <= j < |queue| ==> items'[queue[j]] == items[queue[j]];
    UntouchedAnywhere(items, items', queue);
    AtIsNotSane(items, items');
  }

  lemma UntouchedAnywhere(items: seq<Item>, items': seq<Item>, xs: seq<nat>)
    requires |items'| == |items| && forall j :: 0 <= j < |xs| ==> xs[j] < |items| && Untouched(items[xs[j]])
    requires forall x :: 0 <= x < |items| ==> items'[x] == items[x].(at := items'[x].at)
    ensures forall j :: 0 <= j < |xs| ==> Untouched(items'[xs[j]])
  {
  }

  lemma HeadArrives(items: seq<Item>, queue: seq<nat>, c: Collector, c': Collector)
    requires QueueOk(items, queue) && CollectorOk(items, c) && queue != []
    requires (c.Waiting? && c' == Collecting([queue[0]])) || (c.Collecting? && c' == Collecting(c.batch + [queue[0]]))
    ensures CollectorOk(MovedTo(items, [queue[0]], Collected), c')
  {
    hide Untouched;
    var items' := MovedTo(items, [queue[0]], Collected);
    assert items[queue[0]].at == Queued && Untouched(items[queue[0]]);
    forall j | 0 <= j < |c.Batch()| ensures c.Batch()[j] != queue[0] && Untouched(items[c.Batch()[j]]) {
      assert CollectedOk(c, j, items[c.Batch()[j]]);
    }
    UntouchedAnywhere(items, items', c.Batch());
    UntouchedAnywhere(items, items', [queue[0]]);
  }

  lemma AtIsNotSane(items: seq<Item>, items': seq<Item>)
    requires |items'| == |items| && forall x :: 0 <= x < |items| ==> items'[x] == items[x].(at := items'[x].at)
    ensures forall x :: 0 <= x < |items| && Sane(items[x]) ==> Sane(items'[x])
  {
  }

  lemma HeadMovesAlone(items: seq<Item>, queue: seq<nat>, ds: seq<Dispatcher>, stopped: bool)
    requires QueueOk(items, queue) && queue != [] && DispatchersOk(items, ds, stopped)
    ensures DispatchersOk(MovedTo(items, [queue[0]], Collected), ds, stopped)
  {
    hide DispatchersOk, QueueOk;
    HeadIsQueued(items, queue);
    DispatchersFrame(items, MovedTo(items, [queue[0]], Collected), ds, stopped);
  }

  lemma HeadShifts(a: seq<nat>, b: seq<nat>, queue: seq<nat>)
    requires queue != []
    ensures a + (b + [queue[0]]) + queue[1..] == a + b + queue
  {
    assert queue == [queue[0]] + queue[1..];
  }

  lemma CollectKeeps(s: State, step: Step)
    requires Inv(s) && (step.First? || step.More?) && Collect(s, step).Some?
    ensures Inv(Collect(s, step).value)
  {
    hide DispatchersOk, Busy, Batches, Iota, QueueOk, AllSane, CollectorOk, MovedTo;
    var s' := Collect(s, step).value;
    HeadLeaves(s.items, s.queue);
    HeadArrives(s.items, s.queue, s.collector, s'.collector);
    HeadMovesAlone(s.items, s.queue, s.dispatchers, s.stopped);
    HeadShifts(Batches(s.dispatchers), s.collector.Batch(), s.queue);
    assert s'.collector.Batch() == s.collector.Batch() + [s.queue[0]];
  }

  lemma HeadIsQueued(items: seq<Item>, queue: seq<nat>)
    requires QueueOk(items, queue) && queue != []
    ensures queue[0] < |items| && items[queue[0]].at == Queued
  {
  }

  lemma StartedShape(batch: seq<nat>, ids: seq<string>)
    requires |batch| == |ids| >= 1 && NoDup(batch)
    ensures Shape(Dispatcher(batch, ids, BuildIndex(ids), Calling, false, []))
  {
    hide BuildIndex, NoDup, Last;
  }

  lemma CollectedItem(items: seq<Item>, c: Collector, j: nat)
    requires CollectorOk(items, c) && c.Acquiring? && j < |c.batch|
    ensures c.batch[j] < |items| && Untouched(items[c.batch[j]])
  {
    assert CollectedOk(c, j, items[c.Batch()[j]]);
  }

  /** The collected batch becomes dispatcher `d`'s. */
  lemma BatchMoves(items: seq<Item>, c: Collector, d: nat, stopped: bool)
    requires CollectorOk(items, c) && c.Acquiring?
    ensures
      var items', ids := MovedTo(items, c.batch, Dispatched(d)), IdsOf(items, c.batch);
      DispatcherOk(items', Dispatcher(c.batch, ids, BuildIndex(ids), Calling, false, []), d, stopped)
  {
    hide BuildIndex, NoDup, Routed, CollectedOk, Shape, MovedTo, IdsOf;
    var items', ids := MovedTo(items, c.batch, Dispatched(d)), IdsOf(items, c.batch);
    StartedShape(c.batch, ids);
    forall j | 0 <= j < |c.batch| ensures items'[c.batch[j]] == items[c.batch[j]].(at := Dispatched(d)) && Untouched(items'[c.batch[j]]) {
      CollectedItem(items, c, j);
    }
  }

  lemma OthersStay(items: seq<Item>, c: Collector, d: nat, queue: seq<nat>, ds: seq<Dispatcher>, stopped: bool)
    requires CollectorOk(items, c) && c.Acquiring? && QueueOk(items, queue) && DispatchersOk(items, ds, stopped) && AllSane(items)
    ensures
      var items' := MovedTo(items, c.batch, Dispatched(d));
      QueueOk(items', queue) && DispatchersOk(items', ds, stopped) && AllSane(items')
  {
    hide DispatcherOk, Sane, NoDup, CollectedOk;
    var items' := MovedTo(items, c.batch, Dispatched(d));
    assert forall x :: x in c.Batch() ==> 0 <= x < |items| && items[x].at == Collected;
    DispatchersFrame(items, items', ds, stopped);
    AtIsNotSane(items, items');
  }

  lemma OneMoreBatch(items: seq<Item>, ds: seq<Dispatcher>, disp: Dispatcher, stopped: bool)
    requires DispatchersOk(items, ds, stopped) && DispatcherOk(items, disp, |ds|, stopped)
    ensures DispatchersOk(items, ds + [disp], stopped)
  {
    hide DispatcherOk;
  }

  lemma StartKeeps(s: State)
    requires Inv(s) && StartBatch(s).Some?
    ensures Inv(StartBatch(s).value)
  {
    hide Busy, Batches, DispatcherOk, Iota, QueueOk, AllSane, BuildIndex, MovedTo, DispatchersOk;
    var s' := StartBatch(s).value;
    var d := |s.dispatchers|;
    BatchesSnoc(s.dispatchers, s'.dispatchers[d]);
    assert AcceptedItems(s') == AcceptedItems(s);
    BatchMoves(s.items, s.collector, d, s.stopped);
    OthersStay(s.items, s.collector, d, s.queue, s.dispatchers, s.stopped);
    OneMoreBatch(s'.items, s.dispatchers, s'.dispatchers[d], s.stopped);
    assert CollectorOk(s'.items, Waiting);
  }

  lemma DropKeeps(s: State)
    requires Inv(s) && DropNext(s).Some?
    ensures Inv(DropNext(s).value)
  {
    hide DispatchersOk, Busy, Batches, Iota;
    var s' := DropNext(s).value;
    if s.collector.count < |s.collector.batch| {
      DispatchersFrame(s.items, s'.items, s.dispatchers, s.stopped);
    }
  }

  /** Cancelling or reading changes no obligation. */
  ghost predicate Softened(items: seq<Item>, items': seq<Item>) {
    |items'| == |items| && forall x :: 0 <= x < |items| ==>
      && items'[x] == items[x].(cancelled := items'[x].cancelled, taken := items'[x].taken)
      && (items[x].cancelled ==> items'[x].cancelled) && (Sane(items[x]) ==> Sane(items'[x]))
  }

  lemma SoftenedPosition(disp: Dispatcher, j: nat, it: Item, it': Item, stopped: bool, stopped': bool)
    requires j < |disp.ids| && PositionOk(disp, j, it, stopped) && (stopped ==> stopped')
    requires it' == it.(cancelled := it'.cancelled, taken := it'.taken) && (it.cancelled ==> it'.cancelled)
    ensures PositionOk(disp, j, it', stopped')
  {
    hide UpToFinal, ForId, HasFinal, Subsequence;
  }

  lemma SoftenedQueues(items: seq<Item>, items': seq<Item>, queue: seq<nat>, c: Collector)
    requires QueueOk(items, queue) && CollectorOk(items, c) && AllSane(items) && Softened(items, items')
    ensures QueueOk(items', queue) && CollectorOk(items', c) && AllSane(items')
  {
    hide Sane, NoDup;
    forall j | 0 <= j < |c.Batch()| ensures CollectedOk(c, j, items'[c.Batch()[j]]) {
      assert CollectedOk(c, j, items[c.Batch()[j]]);
    }
  }

  lemma SoftenedKeeps(s: State, s': State)
    requires Inv(s) && Softened(s.items, s'.items) && (s.stopped ==> s'.stopped)
    requires s' == s.(items := s'.items, stopped := s'.stopped)
    ensures Inv(s')
  {
    hide Busy, Batches, Iota, DispatcherOk, QueueOk, CollectorOk, AllSane, SizesOk;
    SoftenedQueues(s.items, s'.items, s.queue, s.collector);
    forall d | 0 <= d < |s.dispatchers| ensures DispatcherOk(s'.items, s.dispatchers[d], d, s'.stopped) {
      SoftenedDispatcher(s.items, s'.items, s.dispatchers[d], d, s.stopped, s'.stopped);
    }
    assert SizesOk(s') by { SameSizes(s, s'); }
  }

  lemma SameSizes(s: State, s': State)
    requires SizesOk(s) && s'.collector == s.collector && s'.dispatchers == s.dispatchers && s'.maxBatchSize == s.maxBatchSize
    ensures SizesOk(s')
  {
  }

  lemma SoftenedDispatcher(items: seq<Item>, items': seq<Item>, disp: Dispatcher, d: nat, stopped: bool, stopped': bool)
    requires DispatcherOk(items, disp, d, stopped) && Softened(items, items') && (stopped ==> stopped')
    ensures DispatcherOk(items', disp, d, stopped')
  {
    hide PositionOk, Sane, NoDup, PhaseOk;
    forall j | 0 <= j < |disp.batch| ensures PositionOk(disp, j, items'[disp.batch[j]], stopped') {
      SoftenedPosition(disp, j, items[disp.batch[j]], items'[disp.batch[j]], stopped, stopped');
    }
  }

  /** Every enabled step keeps the invariant. */
  lemma NextKeeps(s: State, step: Step)
    requires Inv(s) && Next(s, step).Some?
    ensures Inv(Next(s, step).value)
  {
    hide DispatchersOk, Busy, Batches, Iota, QueueOk, Submit, Collect, StartBatch, DropNext, DispatcherStep;
    match step
    case EndSubmit(requestId, outcome) => SubmitKeeps(s, requestId, outcome);
    case Cancel(x) => SoftenedKeeps(s, Next(s, step).value);
    case Take(x) => SoftenedKeeps(s, Next(s, step).value);
    case Shutdown => SoftenedKeeps(s, Next(s, step).value);
    case First => CollectKeeps(s, step);
    case More => CollectKeeps(s, step);
    case Acquire => StartKeeps(s);
    case DropOne => DropKeeps(s);
    case Dispatch(d, act) => DispatchKeeps(s, d, act);
    case _ =>
  }

  /** The invariant holds after any interleaving. */
  lemma {:induction false} RunKeeps(maxInFlight: int, maxBatchSize: int, steps: seq<Step>)
    requires Run(Init(maxInFlight, maxBatchSize), steps).Some?
    ensures Inv(Run(Init(maxInFlight, maxBatchSize), steps).value)
  {
    if steps == [] {
    } else {
      RunKeeps(maxInFlight, maxBatchSize, steps[..|steps| - 1]);
      NextKeeps(Run(Init(maxInFlight, maxBatchSize), steps[..|steps| - 1]).value, steps[|steps| - 1]);
    }
  }
}
