/** What callers may rely on, over every run of the batch scheduler. */
module BatchLaws {
  import opened Wrappers
  import opened BatchSchedulers
  import opened BatchRouting

  // ------------------------------------------------------------------ Batch Slots

  lemma {:induction false} ConfigurationStays(maxInFlight: int, maxBatchSize: int, steps: seq<Step>)
    requires Run(Init(maxInFlight, maxBatchSize), steps).Some?
    ensures
      var s := Run(Init(maxInFlight, maxBatchSize), steps).value;
      s.maxInFlight == Max(1, maxInFlight) && s.maxBatchSize == maxBatchSize
  {
    hide Advance;
    if steps != [] {
      ConfigurationStays(maxInFlight, maxBatchSize, steps[..|steps| - 1]);
    }
  }

  /** At most `maxInFlight` batches are in flight, and accepted items are served in arrival
      order: batches, the collected items and the queue are 0, 1, 2, ... in a row. */
  lemma SlotsAndOrder(maxInFlight: int, maxBatchSize: int, steps: seq<Step>)
    requires Run(Init(maxInFlight, maxBatchSize), steps).Some?
    ensures
      var s := Run(Init(maxInFlight, maxBatchSize), steps).value;
      && Busy(s.dispatchers) <= Max(1, maxInFlight) && |s.queue| <= SUBMIT_CAPACITY
      && AcceptedItems(s) == Iota(|s.items|)
      && forall d :: 0 <= d < |s.dispatchers| ==> 1 <= |s.dispatchers[d].batch| <= Max(1, maxBatchSize)
  {
    hide Busy, Batches, PositionOk, Iota;
    ConfigurationStays(maxInFlight, maxBatchSize, steps);
    RunKeeps(maxInFlight, maxBatchSize, steps);
    var s := Run(Init(maxInFlight, maxBatchSize), steps).value;
    forall d | 0 <= d < |s.dispatchers| ensures 1 <= |s.dispatchers[d].batch| {
      assert DispatcherOk(s.items, s.dispatchers[d], d, s.stopped);
    }
  }

  /** TrySubmit never blocks, and sheds load only while a full queue waits. */
  lemma SubmitAnswers(maxInFlight: int, maxBatchSize: int, steps: seq<Step>, s: State, requestId: string)
    requires Run(Init(maxInFlight, maxBatchSize), steps) == Some(s) && s.callers > 0
    ensures exists outcome :: Next(s, EndSubmit(requestId, outcome)).Some?
    ensures Next(s, EndSubmit(requestId, Overloaded)).Some? ==> |s.queue| == 100 && !s.stopped
    ensures Next(s, EndSubmit(requestId, Accepted)).Some? ==>
      Next(s, EndSubmit(requestId, Accepted)).value.items[..|s.items|] == s.items
      && Next(s, EndSubmit(requestId, Accepted)).value.queue == s.queue + [|s.items|]
  {
    hide Run, CollectorOk, DispatchersOk, Busy, Batches, Iota, AllSane;
    RunKeeps(maxInFlight, maxBatchSize, steps);
    var outcome := if s.stopped then Closed else if |s.queue| < SUBMIT_CAPACITY then Accepted else Overloaded;
    assert Next(s, EndSubmit(requestId, outcome)).Some?;
  }

  // ---------------------------------------------------- what the worker's stream said

  /** The responses the worker sent to dispatcher `d` in a run. */
  function Received(steps: seq<Step>, d: nat): seq<Response> {
    if steps == [] then [] else
      var last, before := steps[|steps| - 1], Received(steps[..|steps| - 1], d);
      if last.Dispatch? && last.d == d && last.act.Recv? then before + [last.act.r] else before
  }

  function Pending(disp: Dispatcher): seq<Response> {
    if disp.phase.Delivering? then [disp.phase.r] else []
  }

  ghost predicate Tracks(ds: seq<Dispatcher>, steps: seq<Step>) {
    forall d: nat :: Received(steps, d) == if d < |ds| then ds[d].handled + Pending(ds[d]) else []
  }

  lemma AdvanceTracks(items: seq<Item>, disp: Dispatcher, stopped: bool, act: Act)
    requires Advance(items, disp, stopped, act).Some?
    ensures
      var disp' := Advance(items, disp, stopped, act).value.disp;
      disp'.handled + Pending(disp') == disp.handled + Pending(disp) + if act.Recv? then [act.r] else []
  {
  }

  lemma NextTracks(s: State, steps: seq<Step>, step: Step)
    requires Tracks(s.dispatchers, steps) && Next(s, step).Some?
    ensures Tracks(Next(s, step).value.dispatchers, steps + [step])
  {
    hide Advance, BuildIndex, MovedTo, IdsOf;
    assert (steps + [step])[..|steps|] == steps;
    var ds' := Next(s, step).value.dispatchers;
    if step.Dispatch? {
      AdvanceTracks(s.items, s.dispatchers[step.d], s.stopped, step.act);
    }
    forall d: nat ensures Received(steps + [step], d) == if d < |ds'| then ds'[d].handled + Pending(ds'[d]) else [] {
      assert Received(steps, d) == if d < |s.dispatchers| then s.dispatchers[d].handled + Pending(s.dispatchers[d]) else [];
    }
  }

  /** `handled`, and the event being delivered, are exactly what the worker sent. */
  lemma {:induction false} HandledIsReceived(maxInFlight: int, maxBatchSize: int, steps: seq<Step>)
    requires Run(Init(maxInFlight, maxBatchSize), steps).Some?
    ensures Tracks(Run(Init(maxInFlight, maxBatchSize), steps).value.dispatchers, steps)
  {
    hide Next;
    if steps == [] {
    } else {
      var before := steps[..|steps| - 1];
      HandledIsReceived(maxInFlight, maxBatchSize, before);
      NextTracks(Run(Init(maxInFlight, maxBatchSize), before).value, before, steps[|steps| - 1]);
      assert steps == before + [steps[|steps| - 1]];
    }
  }

  // ---------------------------------------------------------------------- one item

  /** Nothing is sent after a close, no channel is closed twice, the scheduler adds at most one
      event, and a final is the last event a channel carries. */
  ghost predicate CleanChannel(it: Item) {
    && it.late == 0 && it.closes <= 1 && |it.closing| <= 1 && it.taken <= |it.Sent()|
    && (HasFinal(it.Sent()) ==> it.closes == 1)
    && forall i :: 0 <= i < |it.Sent()| && it.Sent()[i].kind.FinalKind? ==> i == |it.Sent()| - 1
  }

  lemma {:induction false} FinalIsLast(es: seq<Event>)
    ensures forall i :: 0 <= i < |UpToFinal(es)| && UpToFinal(es)[i].kind.FinalKind? ==> i == |UpToFinal(es)| - 1
    ensures HasFinal(UpToFinal(es)) <==> HasFinal(es)
  {
    if es != [] {
      FinalIsLast(es[1..]);
      HasFinalCons(es[0], es[1..]);
      assert es == [es[0]] + es[1..];
      HasFinalCons(es[0], if es[0].kind.FinalKind? then [] else UpToFinal(es[1..]));
    }
  }

  lemma HasFinalCons(e: Event, es: seq<Event>)
    ensures HasFinal([e] + es) <==> e.kind.FinalKind? || HasFinal(es)
  {
    assert ([e] + es)[0] == e;
    if HasFinal(es) {
      var i :| 0 <= i < |es| && es[i].kind.FinalKind?;
      assert ([e] + es)[i + 1] == es[i];
    }
  }

  /** Leaving events out of a sequence with its final last keeps the final last. */
  lemma {:induction false} SubsequenceFinalLast(a: seq<Event>, b: seq<Event>)
    requires Subsequence(a, b) && forall i :: 0 <= i < |b| && b[i].kind.FinalKind? ==> i == |b| - 1
    ensures forall i :: 0 <= i < |a| && a[i].kind.FinalKind? ==> i == |a| - 1
    ensures HasFinal(a) ==> HasFinal(b)
    decreases |b|
  {
    if a != [] {
      var n := |b| - 1;
      if Subsequence(a, b[..n]) {
        SubsequenceFinalLast(a, b[..n]);
      } else {
        SubsequenceFinalLast(a[..|a| - 1], b[..n]);
        assert !HasFinal(b[..n]);
        forall i | 0 <= i < |a| - 1 ensures !a[i].kind.FinalKind? {
          assert a[..|a| - 1][i] == a[i];
        }
      }
    }
  }

  lemma JoinFinals(routed: seq<Event>, closing: seq<Event>)
    requires Ending(closing) && (closing != [] ==> !HasFinal(routed))
    requires forall i :: 0 <= i < |routed| && routed[i].kind.FinalKind? ==> i == |routed| - 1
    ensures forall i :: 0 <= i < |routed + closing| && (routed + closing)[i].kind.FinalKind? ==> i == |routed + closing| - 1
    ensures HasFinal(routed + closing) <==> HasFinal(routed) || closing != []
  {
    var all := routed + closing;
    if closing == [] {
      assert all == routed;
    } else {
      assert all == routed + [closing[0]];
      HasFinalSnoc(routed, closing[0]);
    }
  }

  lemma RoutedIsClean(disp: Dispatcher, id: string, it: Item, stopped: bool)
    requires Routed(disp, id, it, stopped) && Sane(it)
    ensures CleanChannel(it)
  {
    hide ForId, UpToFinal, Subsequence, HasFinal;
    var es := ForId(disp.handled, id);
    FinalIsLast(es);
    SubsequenceFinalLast(it.routed, UpToFinal(es));
    JoinFinals(it.routed, it.closing);
  }

  lemma UnroutedIsClean(it: Item)
    requires (Untouched(it) || Failed(it)) && Sane(it)
    ensures CleanChannel(it)
  {
    JoinFinals(it.routed, it.closing);
  }

  // ------------------------------------------------------------------ where items are

  lemma {:induction false} InSomeBatch(ds: seq<Dispatcher>, x: nat)
    requires x in Batches(ds)
    ensures exists d: nat :: d < |ds| && x in ds[d].batch
  {
    var n := |ds| - 1;
    if x !in ds[n].batch {
      InSomeBatch(ds[..n], x);
      var d: nat :| d < n && x in ds[..n][d].batch;
      assert x in ds[d].batch;
    }
  }

  /** Every accepted item is in exactly one place: the queue, the collector or one batch. */
  lemma Placed(s: State, x: nat)
    requires Inv(s) && x < |s.items|
    ensures s.items[x].at == Queued <==> x in s.queue
    ensures s.items[x].at == Collected <==> x in s.collector.Batch()
    ensures forall d: nat :: s.items[x].at == Dispatched(d) <==> d < |s.dispatchers| && x in s.dispatchers[d].batch
  {
    hide Batches, Busy, PositionOk, Shape, Iota, Sane, NoDup;
    assert x in AcceptedItems(s) by {
      assert AcceptedItems(s)[x] == x;
    }
    if x in Batches(s.dispatchers) {
      InSomeBatch(s.dispatchers, x);
    }
    forall d: nat | d < |s.dispatchers| && x in s.dispatchers[d].batch ensures s.items[x].at == Dispatched(d) {
      assert DispatcherOk(s.items, s.dispatchers[d], d, s.stopped);
    }
  }

  /** In every reachable state every channel is clean. */
  lemma ChannelsAreClean(maxInFlight: int, maxBatchSize: int, steps: seq<Step>, x: nat)
    requires Run(Init(maxInFlight, maxBatchSize), steps).Some?
    requires x < |Run(Init(maxInFlight, maxBatchSize), steps).value.items|
    ensures CleanChannel(Run(Init(maxInFlight, maxBatchSize), steps).value.items[x])
  {
    hide Run, CleanChannel, Routed, Sane, Busy, Batches, Untouched, Failed, NoDup;
    RunKeeps(maxInFlight, maxBatchSize, steps);
    var s := Run(Init(maxInFlight, maxBatchSize), steps).value;
    Placed(s, x);
    assert Sane(s.items[x]);
    match s.items[x].at
    case Queued => UnroutedIsClean(s.items[x]);
    case Collected =>
      var j :| 0 <= j < |s.collector.Batch()| && s.collector.Batch()[j] == x;
      assert CollectedOk(s.collector, j, s.items[x]);
      UnroutedIsClean(s.items[x]);
    case Dispatched(d) =>
      var disp := s.dispatchers[d];
      assert DispatcherOk(s.items, disp, d, s.stopped);
      var j :| 0 <= j < |disp.batch| && disp.batch[j] == x;
      assert PositionOk(disp, j, s.items[x], s.stopped);
      if Routed(disp, disp.ids[j], s.items[x], s.stopped) {
        RoutedIsClean(disp, disp.ids[j], s.items[x], s.stopped);
      } else {
        UnroutedIsClean(s.items[x]);
      }
  }

  // -------------------------------------------------------------------- one batch

  /** Position `j` of a batch, in any reachable state. */
  lemma AtPosition(maxInFlight: int, maxBatchSize: int, steps: seq<Step>, s: State, d: nat, j: nat)
    requires Run(Init(maxInFlight, maxBatchSize), steps) == Some(s)
    requires d < |s.dispatchers| && j < |s.dispatchers[d].batch|
    ensures |s.dispatchers[d].ids| == |s.dispatchers[d].batch| && s.dispatchers[d].batch[j] < |s.items|
    ensures s.items[s.dispatchers[d].batch[j]].requestId == s.dispatchers[d].ids[j]
    ensures PositionOk(s.dispatchers[d], j, s.items[s.dispatchers[d].batch[j]], s.stopped) && Shape(s.dispatchers[d])
  {
    hide Run, PositionOk, Shape, Busy, Batches, Iota;
    RunKeeps(maxInFlight, maxBatchSize, steps);
    assert DispatcherOk(s.items, s.dispatchers[d], d, s.stopped);
    assert Shape(s.dispatchers[d]);
    ShapeLengths(s.dispatchers[d]);
  }

  lemma ShapeLengths(disp: Dispatcher)
    requires Shape(disp)
    ensures |disp.ids| == |disp.batch|
  {
  }

  /** Once its dispatcher is done an item's channel was closed exactly once, unless a later item
      of the batch took its request id on the stream; then it was never closed nor sent anything. */
  lemma ClosedOnceIff(maxInFlight: int, maxBatchSize: int, steps: seq<Step>, s: State, d: nat, j: nat)
    requires Run(Init(maxInFlight, maxBatchSize), steps) == Some(s)
    requires d < |s.dispatchers| && s.dispatchers[d].phase.Done? && j < |s.dispatchers[d].batch|
    ensures s.dispatchers[d].batch[j] < |s.items| && |s.dispatchers[d].ids| == |s.dispatchers[d].batch|
    ensures
      var it := s.items[s.dispatchers[d].batch[j]];
      if s.dispatchers[d].phase.rejected || Last(s.dispatchers[d].ids, j) then it.closes == 1
      else it.closes == 0 && it.Sent() == []
  {
    hide Run, ForId, UpToFinal, HasFinal, Subsequence;
    AtPosition(maxInFlight, maxBatchSize, steps, s, d, j);
  }

  /** So a batch that was not rejected closes all its channels exactly when its ids differ. */
  lemma AllClosedIffDistinct(maxInFlight: int, maxBatchSize: int, steps: seq<Step>, s: State, d: nat)
    requires Run(Init(maxInFlight, maxBatchSize), steps) == Some(s)
    requires d < |s.dispatchers| && s.dispatchers[d].phase == Done(false)
    ensures
      (forall j :: 0 <= j < |s.dispatchers[d].batch| ==>
        s.dispatchers[d].batch[j] < |s.items| && s.items[s.dispatchers[d].batch[j]].closes == 1)
      <==> NoDup(s.dispatchers[d].ids)
  {
    hide Run, Inv;
    var disp := s.dispatchers[d];
    forall j: nat | j < |disp.batch|
      ensures disp.batch[j] < |s.items| && |disp.ids| == |disp.batch|
      ensures s.items[disp.batch[j]].closes == if Last(disp.ids, j) then 1 else 0
    {
      ClosedOnceIff(maxInFlight, maxBatchSize, steps, s, d, j);
    }
    SameCounts(maxInFlight, maxBatchSize, steps, s, d);
    LastIffDistinct(disp.ids);
  }

  lemma SameCounts(maxInFlight: int, maxBatchSize: int, steps: seq<Step>, s: State, d: nat)
    requires Run(Init(maxInFlight, maxBatchSize), steps) == Some(s) && d < |s.dispatchers|
    ensures |s.dispatchers[d].ids| == |s.dispatchers[d].batch|
  {
    hide Run, PositionOk, Busy, Batches, Iota;
    RunKeeps(maxInFlight, maxBatchSize, steps);
    assert DispatcherOk(s.items, s.dispatchers[d], d, s.stopped);
  }

  lemma LastIffDistinct(ids: seq<string>)
    ensures (forall j: nat :: j < |ids| ==> Last(ids, j)) <==> NoDup(ids)
  {
    if forall j: nat :: j < |ids| ==> Last(ids, j) {
      forall i, j | 0 <= i < j < |ids| ensures ids[i] != ids[j] {
        assert Last(ids, i);
      }
    }
  }

  /** In every reachable state a routed item carries, in order, events the worker sent for its id
      up to the first final: all those handled so far, if it was not cancelled and nothing was
      shut down.  A final of the scheduler's own appears only when the worker sent none. */
  lemma RoutedInOrder(maxInFlight: int, maxBatchSize: int, steps: seq<Step>, s: State, d: nat, j: nat)
    requires Run(Init(maxInFlight, maxBatchSize), steps) == Some(s)
    requires d < |s.dispatchers| && j < |s.dispatchers[d].batch| && Last(s.dispatchers[d].ids, j)
    requires var p := s.dispatchers[d].phase; !p.Calling? && !p.Failing? && p != Done(true)
    ensures s.dispatchers[d].batch[j] < |s.items| && |s.dispatchers[d].ids| == |s.dispatchers[d].batch|
    ensures Received(steps, d) == s.dispatchers[d].handled + Pending(s.dispatchers[d])
    ensures
      var it := s.items[s.dispatchers[d].batch[j]];
      var owed := UpToFinal(ForId(s.dispatchers[d].handled, s.dispatchers[d].ids[j]));
      && Subsequence(it.routed, owed) && (!it.cancelled && !s.stopped ==> it.routed == owed)
      && (it.closing != [] ==> !HasFinal(owed)) && (it.closes == 0 ==> !HasFinal(owed))
      && (s.dispatchers[d].phase.Done? ==> it.closes == 1)
  {
    hide Run, ForId, UpToFinal, HasFinal, Subsequence;
    AtPosition(maxInFlight, maxBatchSize, steps, s, d, j);
    HandledIsReceived(maxInFlight, maxBatchSize, steps);
    FinalIsLast(ForId(s.dispatchers[d].handled, s.dispatchers[d].ids[j]));
  }

  // ---------------------------------------------------------------------- shutdown

  /** Steps a dispatcher still has to take once the scheduler is stopped. */
  function Left(disp: Dispatcher): nat {
    match disp.phase
    case Calling => |disp.batch| + 2
    case Streaming => |disp.index| + if disp.aborted then 2 else 3
    case Delivering(r) => |disp.index| + 4
    case Finishing(e) => |disp.index| + 1
    case Failing(count, e) => if count <= |disp.batch| then |disp.batch| - count + 1 else 0
    case Done(rejected) => 0
  }

  function CollectorLeft(c: Collector): nat {
    match c
    case Waiting => 1
    case Collecting(batch) => |batch| + 3
    case Acquiring(batch) => |batch| + 2
    case Dropping(batch, count) => if count <= |batch| then |batch| - count + 1 else 0
    case Returned(batch) => 0
  }

  /** A dispatcher's next step after a shutdown, whatever worker and consumers do. */
  ghost function StopAct(disp: Dispatcher): Act {
    match disp.phase
    case Calling => Reject("batch generate failed")
    case Streaming => if disp.aborted then EndStream(Cancelled) else Abort
    case Delivering(r) => Skip
    case Finishing(e) => if exists id :: id in disp.index then (var id :| id in disp.index; FinishOne(id)) else Leave
    case Failing(count, e) => if count < |disp.batch| then FailOne else Leave
    case Done(rejected) => Leave
  }

  /** Not a send by the worker nor a read by a consumer. */
  predicate Internal(step: Step) {
    match step
    case Dispatch(d, act) => !act.Recv? && !act.Accept? && !act.Send?
    case WindowOver => true
    case StopWaiting => true
    case StopAcquiring => true
    case DropOne => true
    case _ => false
  }

  lemma StopDelivering(items: seq<Item>, disp: Dispatcher, d: nat)
    requires DispatcherOk(items, disp, d, true) && disp.phase.Delivering?
    ensures
      var move := Advance(items, disp, true, Skip);
      move.Some? && Left(move.value.disp) < Left(disp)
  {
    hide PositionOk, NoDup, Last;
    MapShrinks(disp.index, disp.phase.r.requestId);
  }

  lemma StopFinishing(items: seq<Item>, disp: Dispatcher, d: nat, id: string)
    requires DispatcherOk(items, disp, d, true) && disp.phase.Finishing? && id in disp.index
    ensures
      var move := Advance(items, disp, true, FinishOne(id));
      move.Some? && Left(move.value.disp) < Left(disp)
  {
    hide PositionOk, NoDup, Last;
    MapShrinks(disp.index, id);
  }

  lemma StopActWorks(items: seq<Item>, disp: Dispatcher, d: nat)
    requires DispatcherOk(items, disp, d, true) && !disp.phase.Done?
    ensures
      var move := Advance(items, disp, true, StopAct(disp));
      move.Some? && Left(move.value.disp) < Left(disp)
  {
    hide PositionOk, NoDup, Last, AllCancelled, Lookup, Delivered;
    match disp.phase
    case Delivering(r) => StopDelivering(items, disp, d);
    case Finishing(e) =>
      if exists id :: id in disp.index {
        var id :| StopAct(disp) == FinishOne(id) && id in disp.index;
        StopFinishing(items, disp, d, id);
      } else {
        assert disp.index == map[];
      }
    case _ =>
  }

  lemma MapShrinks(m: map<string, nat>, id: string)
    requires id in m
    ensures |m - {id}| == |m| - 1
  {
    assert m.Keys == (m - {id}).Keys + {id};
    assert |m.Keys| == |(m - {id}).Keys| + 1;
  }

  function TotalLeft(ds: seq<Dispatcher>): nat {
    if ds == [] then 0 else TotalLeft(ds[..|ds| - 1]) + Left(ds[|ds| - 1])
  }

  lemma {:induction false} TotalLeftUpdate(ds: seq<Dispatcher>, d: nat, disp: Dispatcher)
    requires d < |ds|
    ensures TotalLeft(ds[d := disp]) == TotalLeft(ds) - Left(ds[d]) + Left(disp)
  {
    hide Left;
    var n := |ds| - 1;
    if d == n {
      assert ds[d := disp][..n] == ds[..n];
    } else {
      TotalLeftUpdate(ds[..n], d, disp);
      assert ds[d := disp][..n] == ds[..n][d := disp];
    }
  }

  /** The collector has returned and every batch is done. */
  predicate Quiet(s: State) {
    s.collector.Returned? && forall d :: 0 <= d < |s.dispatchers| ==> s.dispatchers[d].phase.Done?
  }

  function Work(s: State): nat { TotalLeft(s.dispatchers) + CollectorLeft(s.collector) }

  lemma CollectorStops(s: State) returns (step: Step)
    requires Inv(s) && s.stopped && !s.collector.Returned?
    ensures Internal(step) && Next(s, step).Some? && Work(Next(s, step).value) < Work(s) && Next(s, step).value.stopped
  {
    hide DispatchersOk, QueueOk, Busy, Batches, Iota, TotalLeft, NoDup;
    step := match s.collector
      case Waiting => StopWaiting
      case Collecting(batch) => WindowOver
      case Acquiring(batch) => StopAcquiring
      case _ => DropOne;
  }

  lemma DispatcherStops(s: State, d: nat) returns (step: Step)
    requires Inv(s) && s.stopped && d < |s.dispatchers| && !s.dispatchers[d].phase.Done?
    ensures Internal(step) && Next(s, step).Some? && Work(Next(s, step).value) < Work(s) && Next(s, step).value.stopped
  {
    hide QueueOk, CollectorOk, AllSane, Busy, Batches, Iota, TotalLeft, NoDup, DispatcherOk, Left, Advance;
    var disp := s.dispatchers[d];
    step := Dispatch(d, StopAct(disp));
    StopActWorks(s.items, disp, d);
    BusyUpdate(s.dispatchers, d, disp);
    TotalLeftUpdate(s.dispatchers, d, Advance(s.items, disp, true, StopAct(disp)).value.disp);
  }

  lemma RunSnoc(s: State, steps: seq<Step>, step: Step)
    ensures Run(s, steps + [step]) == var before := Run(s, steps); if before.None? then None else Next(before.value, step)
  {
    assert (steps + [step])[..|steps|] == steps;
  }

  lemma {:induction false} RunTwice(s: State, a: seq<Step>, b: seq<Step>)
    requires Run(s, a).Some?
    ensures Run(s, a + b) == Run(Run(s, a).value, b)
  {
    hide Next;
    if b == [] {
      assert a + b == a;
    } else {
      RunTwice(s, a, b[..|b| - 1]);
      assert a + b == (a + b[..|b| - 1]) + [b[|b| - 1]];
      RunSnoc(s, a + b[..|b| - 1], b[|b| - 1]);
    }
  }

  /** A shut-down scheduler is never wedged: its own steps, without any help from the worker or
      a consumer, bring it to rest. */
  lemma {:induction false} ShutdownDrains(s: State)
    requires Inv(s) && s.stopped
    ensures exists steps :: (forall i :: 0 <= i < |steps| ==> Internal(steps[i])) && Run(s, steps).Some? && Quiet(Run(s, steps).value)
    decreases Work(s)
  {
    hide Next, Work, Inv, Internal;
    if Quiet(s) {
      assert Run(s, []) == Some(s);
    } else {
      var step: Step;
      if !s.collector.Returned? {
        step := CollectorStops(s);
      } else {
        var d: nat :| d < |s.dispatchers| && !s.dispatchers[d].phase.Done?;
        step := DispatcherStops(s, d);
      }
      NextKeeps(s, step);
      var s' := Next(s, step).value;
      ShutdownDrains(s');
      var rest :| (forall i :: 0 <= i < |rest| ==> Internal(rest[i])) && Run(s', rest).Some? && Quiet(Run(s', rest).value);
      RunSnoc(s, [], step);
      assert [] + [step] == [step];
      RunTwice(s, [step], rest);
      assert forall i :: 0 <= i < |[step] + rest| ==> Internal(([step] + rest)[i]);
    }
  }

  /** At rest, with distinct ids in every batch the worker accepted, the items never closed are
      exactly those left in the queue. */
  lemma UnclosedIffQueued(maxInFlight: int, maxBatchSize: int, steps: seq<Step>, s: State, x: nat)
    requires Run(Init(maxInFlight, maxBatchSize), steps) == Some(s) && Quiet(s) && x < |s.items|
    requires forall d :: 0 <= d < |s.dispatchers| && s.dispatchers[d].phase == Done(false) ==> NoDup(s.dispatchers[d].ids)
    ensures s.items[x].closes == if s.items[x].at.Queued? then 0 else 1
  {
    hide Run, Batches, Busy, Iota, Routed, Sane, Shape, Last;
    RunKeeps(maxInFlight, maxBatchSize, steps);
    Placed(s, x);
    match s.items[x].at
    case Queued =>
      var j :| 0 <= j < |s.queue| && s.queue[j] == x;
    case Collected =>
      var j :| 0 <= j < |s.collector.Batch()| && s.collector.Batch()[j] == x;
      assert CollectedOk(s.collector, j, s.items[x]);
    case Dispatched(d) =>
      var disp := s.dispatchers[d];
      var j :| 0 <= j < |disp.batch| && disp.batch[j] == x;
      ClosedOnceIff(maxInFlight, maxBatchSize, steps, s, d, j);
      assert disp.phase == Done(false) ==> Last(disp.ids, j) by {
        if disp.phase == Done(false) {
          LastIffDistinct(disp.ids);
        }
      }
  }

  lemma QueuedIsOpen(s: State, x: nat)
    requires Inv(s) && x in s.queue
    ensures x < |s.items| && s.items[x].closes == 0
  {
    hide DispatchersOk, CollectorOk, Busy, Iota;
  }

  lemma QueuedStays(s: State, step: Step, x: nat)
    requires s.collector.Returned? && x in s.queue && Next(s, step).Some?
    ensures Next(s, step).value.collector.Returned? && x in Next(s, step).value.queue
  {
    hide Advance, MovedTo, BuildIndex, IdsOf;
  }

  /** And once the collector has returned, a queued item stays where it is, unclosed. */
  lemma {:induction false} QueuedForever(s: State, steps: seq<Step>, x: nat)
    requires Inv(s) && s.collector.Returned? && x in s.queue && Run(s, steps).Some?
    ensures Inv(Run(s, steps).value) && Run(s, steps).value.collector.Returned? && x in Run(s, steps).value.queue
    ensures x < |Run(s, steps).value.items| && Run(s, steps).value.items[x].closes == 0
  {
    hide Next, Inv;
    if steps == [] {
    } else {
      var before := steps[..|steps| - 1];
      QueuedForever(s, before, x);
      NextKeeps(Run(s, before).value, steps[|steps| - 1]);
      QueuedStays(Run(s, before).value, steps[|steps| - 1], x);
    }
    QueuedIsOpen(Run(s, steps).value, x);
  }

  /** A submission that raced the shutdown: accepted into a queue nobody reads any more. */
  lemma ShutdownLeavesOpen()
    ensures exists steps :: var s := Run(Init(1, 1), steps);
      s.Some? && Quiet(s.value) && s.value.stopped && |s.value.items| == 1 && s.value.items[0].at.Queued?
      && forall more :: Run(s.value, more).Some? ==> |Run(s.value, more).value.items| > 0 && Run(s.value, more).value.items[0].closes == 0
  {
    hide Inv;
    var init := Init(1, 1);
    var s1 := init.(callers := 1);
    var s2 := s1.(stopped := true);
    var s3 := s2.(collector := Returned([]));
    var s4 := s3.(callers := 0, queue := [0], items := [Item("a", Queued, false, [], [], 0, 0, 0)]);
    RunNone(init);
    StepTo(init, [], init, BeginSubmit, s1);
    StepTo(init, [] + [BeginSubmit], s1, Shutdown, s2);
    StepTo(init, [] + [BeginSubmit] + [Shutdown], s2, StopWaiting, s3);
    assert s3.queue + [|s3.items|] == [0] && s3.items + [s4.items[0]] == s4.items;
    StepTo(init, [] + [BeginSubmit] + [Shutdown] + [StopWaiting], s3, EndSubmit("a", Accepted), s4);
    var steps := [] + [BeginSubmit] + [Shutdown] + [StopWaiting] + [EndSubmit("a", Accepted)];
    assert Run(init, steps) == Some(s4);
    RunKeeps(1, 1, steps);
    forall more | Run(s4, more).Some?
      ensures |Run(s4, more).value.items| > 0 && Run(s4, more).value.items[0].closes == 0
    {
      QueuedForever(s4, more, 0);
    }
  }

  /** After a shutdown with no TrySubmit under way nothing is accepted any more. */
  lemma {:induction false} ClosedToCallers(s: State, steps: seq<Step>)
    requires s.stopped && s.callers == 0 && Run(s, steps).Some?
    ensures Run(s, steps).value.stopped && Run(s, steps).value.callers == 0
    ensures forall i :: 0 <= i < |steps| ==> !steps[i].EndSubmit?
  {
    hide Next;
    if steps != [] {
      ClosedToCallers(s, steps[..|steps| - 1]);
      StaysClosed(Run(s, steps[..|steps| - 1]).value, steps[|steps| - 1]);
    }
  }

  lemma StaysClosed(s: State, step: Step)
    requires s.stopped && s.callers == 0 && Next(s, step).Some?
    ensures Next(s, step).value.stopped && Next(s, step).value.callers == 0 && !step.EndSubmit?
  {
    hide Advance, MovedTo, BuildIndex, IdsOf;
  }

  /** Two requests with one id in a batch: the first never gets an event nor a close. */
  lemma DuplicateIsLost()
    ensures exists steps :: var s := Run(Init(1, 2), steps);
      s.Some? && |s.value.items| == 2 && s.value.items[0].closes == 0 && s.value.items[1].closes == 1
      && |s.value.dispatchers| == 1 && s.value.dispatchers[0].phase == Done(false)
  {
    hide Next, Run;
    var s, steps := TwoCollected();
    var s1, more := DuplicateDispatched(s);
    var s2, rest := DuplicateFinished(s1);
    RunTwice(Init(1, 2), steps, more);
    RunTwice(Init(1, 2), steps + more, rest);
    assert Run(Init(1, 2), steps + more + rest) == Some(s2);
  }

  lemma StepTo(s: State, steps: seq<Step>, mid: State, step: Step, end: State)
    requires Run(s, steps) == Some(mid) && Next(mid, step) == Some(end)
    ensures Run(s, steps + [step]) == Some(end)
  {
    hide Next;
    RunSnoc(s, steps, step);
  }

  lemma DuplicateDispatched(s: State) returns (s': State, steps: seq<Step>)
    requires s.maxInFlight == 1 && s.slots == 0 && s.dispatchers == [] && s.collector == Collecting([0, 1]) && |s.items| == 2
    requires s.items[0].requestId == "a" && s.items[1].requestId == "a"
    ensures Run(s, steps) == Some(s')
    ensures s'.dispatchers == [Dispatcher([0, 1], ["a", "a"], map["a" := 1], Calling, false, [])] && s'.slots == 1
    ensures |s'.items| == 2 && forall x :: 0 <= x < 2 ==> s'.items[x] == s.items[x].(at := Dispatched(0))
  {
    hide Run, StartBatch;
    var s1 := s.(collector := Acquiring([0, 1]));
    RunNone(s);
    StepTo(s, [], s, WindowOver, s1);
    s' := DuplicateStarted(s1);
    StepTo(s, [] + [WindowOver], s1, Acquire, s');
    steps := [] + [WindowOver] + [Acquire];
  }

  lemma DuplicateStarted(s: State) returns (s': State)
    requires s.maxInFlight == 1 && s.slots == 0 && s.dispatchers == [] && s.collector == Acquiring([0, 1]) && |s.items| == 2
    requires s.items[0].requestId == "a" && s.items[1].requestId == "a"
    ensures StartBatch(s) == Some(s')
    ensures s'.dispatchers == [Dispatcher([0, 1], ["a", "a"], map["a" := 1], Calling, false, [])] && s'.slots == 1
    ensures |s'.items| == 2 && forall x :: 0 <= x < 2 ==> s'.items[x] == s.items[x].(at := Dispatched(0))
  {
    hide BuildIndex, MovedTo, IdsOf;
    var batch: seq<nat> := [0, 1];
    assert s.collector.batch == batch && 0 in batch && 1 in batch;
    var ids := IdsOf(s.items, batch);
    assert ids == ["a", "a"];
    DuplicateIndex(ids);
    s' := StartBatch(s).value;
  }

  lemma RunNone(s: State)
    ensures Run(s, []) == Some(s)
  {
  }

  lemma OnlyDispatcher(s: State, act: Act, move: Move, s': State)
    requires |s.dispatchers| == 1 && Advance(s.items, s.dispatchers[0], s.stopped, act) == Some(move)
    requires if act.Leave? then s.slots == 1 && s'.slots == 0 else s'.slots == s.slots
    requires s' == s.(dispatchers := [move.disp], items := move.items, slots := s'.slots)
    ensures Next(s, Dispatch(0, act)) == Some(s')
  {
    hide Advance;
    assert s.dispatchers[0 := move.disp] == [move.disp];
  }

  /** The worker ends its stream at once: only the second item is in the index. */
  lemma DuplicateFinished(s: State) returns (s': State, steps: seq<Step>)
    requires s.dispatchers == [Dispatcher([0, 1], ["a", "a"], map["a" := 1], Calling, false, [])] && s.slots == 1
    requires |s.items| == 2 && forall x :: 0 <= x < 2 ==> s.items[x].closes == 0
    ensures Run(s, steps) == Some(s') && |s'.items| == 2 && s'.items[0].closes == 0 && s'.items[1].closes == 1
    ensures |s'.dispatchers| == 1 && s'.dispatchers[0].phase == Done(false)
  {
    hide Run, Next;
    var e := EndFinal(EndOfStream);
    var d1 := s.dispatchers[0].(phase := Streaming);
    var d2 := d1.(phase := Finishing(e));
    var d3 := d2.(index := map[]);
    var items3 := s.items[1 := s.items[1].Finish(e)];
    var s1, s2 := s.(dispatchers := [d1]), s.(dispatchers := [d2]);
    var s3 := s.(dispatchers := [d3], items := items3);
    s' := s3.(dispatchers := [d3.(phase := Done(false))], slots := 0);
    assert map["a" := 1 as nat] - {"a"} == map[];
    RunNone(s);
    OnlyDispatcher(s, Accept, Move(d1, s.items), s1);
    StepTo(s, [], s, Dispatch(0, Accept), s1);
    OnlyDispatcher(s1, EndStream(EndOfStream), Move(d2, s.items), s2);
    StepTo(s, [] + [Dispatch(0, Accept)], s1, Dispatch(0, EndStream(EndOfStream)), s2);
    OnlyDispatcher(s2, FinishOne("a"), Move(d3, items3), s3);
    steps := [] + [Dispatch(0, Accept)] + [Dispatch(0, EndStream(EndOfStream))];
    StepTo(s, steps, s2, Dispatch(0, FinishOne("a")), s3);
    OnlyDispatcher(s3, Leave, Move(d3.(phase := Done(false)), items3), s');
    StepTo(s, steps + [Dispatch(0, FinishOne("a"))], s3, Dispatch(0, Leave), s');
    steps := steps + [Dispatch(0, FinishOne("a"))] + [Dispatch(0, Leave)];
  }

  lemma DuplicateIndex(ids: seq<string>)
    requires ids == ["a", "a"]
    ensures BuildIndex(ids) == map["a" := 1]
  {
    assert ids[..1] == ["a"] && ["a"][..0] == [];
    assert BuildIndex(["a"]) == map["a" := 0];
  }

  /** Two submissions with the id "a", both collected. */
  lemma TwoCollected() returns (s: State, steps: seq<Step>)
    ensures Run(Init(1, 2), steps) == Some(s)
    ensures s.maxInFlight == 1 && s.slots == 0 && s.dispatchers == [] && s.collector == Collecting([0, 1]) && !s.stopped
    ensures s.items == [Item("a", Collected, false, [], [], 0, 0, 0), Item("a", Collected, false, [], [], 0, 0, 0)]
  {
    var fresh0 := Item("a", Queued, false, [], [], 0, 0, 0);
    var init := Init(1, 2);
    var a, b := BeginSubmit, EndSubmit("a", Accepted);
    RunSnoc(init, [], a);
    RunSnoc(init, [] + [a], b);
    var s2 := Run(init, [] + [a] + [b]).value;
    assert s2 == init.(queue := [0], items := [fresh0]);
    RunSnoc(init, [] + [a] + [b], a);
    RunSnoc(init, [] + [a] + [b] + [a], b);
    steps := [] + [a] + [b] + [a] + [b];
    var s4 := Run(init, steps).value;
    assert s4 == init.(queue := [0, 1], items := [fresh0, fresh0]);
    RunSnoc(init, steps, First);
    RunSnoc(init, steps + [First], More);
    steps := steps + [First] + [More];
    s := Run(init, steps).value;
  }
}
