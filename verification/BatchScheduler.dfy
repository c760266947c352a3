/** The Go batch scheduler as interleaved steps of its goroutines: callers of TrySubmit, the
    collector, one dispatcher per batch, the watchers, and the consumers of the event channels.
    A step is one `select`, channel operation or RPC return; a send or close that follows in the
    same goroutine without a choice belongs to the same step. */
module BatchSchedulers {
  import opened Wrappers

  const SUBMIT_CAPACITY: nat := 100
  const EVENTS_CAPACITY: nat := 100

  // ----------------------------------------------------------------------- events

  datatype Kind = Unspecified | TokenKind | ReasoningKind | ToolUseKind | FinalKind

  datatype Tool = Tool(id: string, name: string, arguments: string)

  datatype Usage = Usage(prompt: int, completion: int, total: int)

  /** One message of the worker's stream. */
  datatype Response = Response(
    requestId: string, kind: Kind, token: string, reasoning: string, tool: Option<Tool>,
    stopReason: string, finishReason: string, usage: Option<Usage>)

  /** What a consumer reads from its channel. */
  datatype Event = Event(
    kind: Kind, token: string, tool: Option<Tool>, stopReason: string, finishReason: string,
    usage: Option<Usage>, error: string)

  function ToEvent(r: Response): (e: Event)
    ensures e.kind == r.kind
  {
    match r.kind
    case Unspecified => Event(r.kind, "", None, "", "", None, "")
    case TokenKind => Event(r.kind, r.token, None, "", "", None, "")
    case ReasoningKind => Event(r.kind, r.reasoning, None, "", "", None, "")
    case ToolUseKind => Event(r.kind, "", r.tool, "", "", None, "")
    case FinalKind =>
      Event(r.kind, r.token, None, r.stopReason, r.finishReason, r.usage,
            if r.stopReason == "STOP_ERROR" then r.token else "")
  }

  function OwnFinal(stopReason: string, finishReason: string, error: string): Event {
    Event(FinalKind, "", None, stopReason, finishReason, None, error)
  }

  /** `errSchedulerClosed` is reported as a cancellation, anything else as an error. */
  const CLOSED_FINAL: Event := OwnFinal("STOP_CANCELLED", "cancelled", "")

  // ------------------------------------------------------------------------ items

  /** Where an accepted item is. */
  datatype Place = Queued | Collected | Dispatched(d: nat)

  /** One pending request and its event channel.  The channel has carried `routed`, the worker's
      events, then `closing`, a final of the scheduler's own; the consumer has read `taken` of
      them.  `closes` counts close calls and `late` sends to a closed channel. */
  datatype Item = Item(
    requestId: string, at: Place, cancelled: bool, routed: seq<Event>, closing: seq<Event>,
    taken: nat, closes: nat, late: nat)
  {
    function Sent(): seq<Event> { routed + closing }

    predicate Room() { |routed| + |closing| - taken < EVENTS_CAPACITY }

    function Route(e: Event): Item {
      if closes > 0 then this.(late := late + 1) else this.(routed := routed + [e])
    }

    function Close(): Item { this.(closes := closes + 1) }

    /** A non-blocking send of a final, then the close. */
    function Finish(e: Event): Item {
      (if !Room() then this
       else if closes > 0 then this.(late := late + 1)
       else this.(closing := closing + [e])).Close()
    }
  }

  // ------------------------------------------------------------------ dispatchers

  datatype End = EndOfStream | Broken(error: string) | Cancelled

  function EndFinal(end: End): (e: Event)
    ensures e.kind == FinalKind
  {
    match end
    case EndOfStream => OwnFinal("STOP_ERROR", "error", "inference stream ended without final")
    case Broken(error) => OwnFinal("STOP_ERROR", "error", error)
    case Cancelled => OwnFinal("STOP_CANCELLED", "cancelled", "")
  }

  /** The BatchGenerate call itself failed. */
  function CallFinal(error: string): (e: Event)
    ensures e.kind == FinalKind
  {
    OwnFinal("STOP_ERROR", "error", "batch generate failed: " + error)
  }

  /** Calling: BatchGenerate has not returned.  Delivering: blocked in the send of one event.
      Finishing: in `finishAll`.  Failing: in `failAll`, `count` items done. */
  datatype Phase = Calling | Streaming | Delivering(r: Response) | Finishing(last: Event)
                 | Failing(count: nat, error: Event) | Done(rejected: bool)

  /** A dispatched batch: item numbers and their request ids, the routing index (an item named by
      its position in the batch), whether the RPC was cancelled, and the responses dealt with. */
  datatype Dispatcher = Dispatcher(
    batch: seq<nat>, ids: seq<string>, index: map<string, nat>, phase: Phase, aborted: bool, handled: seq<Response>)

  /** No later item of the batch has the same request id. */
  ghost predicate Last(ids: seq<string>, j: nat) {
    j < |ids| && forall k :: j < k < |ids| ==> ids[k] != ids[j]
  }

  /** A later item overwrites an earlier one with the same request id. */
  function BuildIndex(ids: seq<string>): (index: map<string, nat>)
    ensures forall id :: id in index ==> index[id] < |ids| && ids[index[id]] == id && Last(ids, index[id])
    ensures forall j :: 0 <= j < |ids| ==> ids[j] in index
  {
    if ids == [] then map[] else BuildIndex(ids[..|ids| - 1])[ids[|ids| - 1] := |ids| - 1]
  }

  datatype Act = Accept | Reject(error: string) | Recv(r: Response) | EndStream(end: End) | Send | Skip
               | FinishOne(id: string) | FailOne | Leave | Abort

  datatype Move = Move(disp: Dispatcher, items: seq<Item>)

  function Lookup(items: seq<Item>, disp: Dispatcher, id: string): Option<nat> {
    if id in disp.index && disp.index[id] < |disp.batch| && disp.batch[disp.index[id]] < |items|
    then Some(disp.batch[disp.index[id]]) else None
  }

  /** After the `select` around the send: a final closes the channel and leaves the index. */
  function Delivered(items: seq<Item>, disp: Dispatcher, r: Response, x: nat): Move
    requires x < |items|
  {
    var disp1 := disp.(phase := Streaming, handled := disp.handled + [r]);
    if r.kind.FinalKind? then Move(disp1.(index := disp.index - {r.requestId}), items[x := items[x].Close()])
    else Move(disp1, items)
  }

  ghost predicate AllCancelled(items: seq<Item>, batch: seq<nat>) {
    forall j :: 0 <= j < |batch| ==> batch[j] < |items| && items[batch[j]].cancelled
  }

  /** One step of a dispatcher; None when it is not enabled. */
  ghost function Advance(items: seq<Item>, disp: Dispatcher, stopped: bool, act: Act): Option<Move> {
    match act
    case Accept => if disp.phase.Calling? then Some(Move(disp.(phase := Streaming), items)) else None
    case Reject(error) =>
      if disp.phase.Calling? then Some(Move(disp.(phase := Failing(0, CallFinal(error))), items)) else None
    case Recv(r) =>
      if !disp.phase.Streaming? then None
      else if Lookup(items, disp, r.requestId).None? then Some(Move(disp.(handled := disp.handled + [r]), items))
      else Some(Move(disp.(phase := Delivering(r)), items))
    case EndStream(end) =>
      if disp.phase.Streaming? && (end.Cancelled? ==> disp.aborted) && (end.Broken? ==> !disp.aborted)
      then Some(Move(disp.(phase := Finishing(EndFinal(end))), items)) else None
    case Send =>
      if !disp.phase.Delivering? then None else
        var x := Lookup(items, disp, disp.phase.r.requestId);
        if x.None? || !items[x.value].Room() then None
        else Some(Delivered(items[x.value := items[x.value].Route(ToEvent(disp.phase.r))], disp, disp.phase.r, x.value))
    case Skip =>
      if !disp.phase.Delivering? then None else
        var x := Lookup(items, disp, disp.phase.r.requestId);
        if x.None? || !(items[x.value].cancelled || stopped) then None
        else Some(Delivered(items, disp, disp.phase.r, x.value))
    case FinishOne(id) =>
      if !disp.phase.Finishing? then None else
        var x := Lookup(items, disp, id);
        if x.None? then None
        else Some(Move(disp.(index := disp.index - {id}), items[x.value := items[x.value].Finish(disp.phase.last)]))
    case FailOne =>
      if !disp.phase.Failing? || disp.phase.count >= |disp.batch| || disp.batch[disp.phase.count] >= |items| then None else
        var x := disp.batch[disp.phase.count];
        Some(Move(disp.(phase := Failing(disp.phase.count + 1, disp.phase.error)), items[x := items[x].Finish(disp.phase.error)]))
    case Leave =>
      if disp.phase.Finishing? && disp.index == map[] then Some(Move(disp.(phase := Done(false)), items))
      else if disp.phase.Failing? && disp.phase.count == |disp.batch| then Some(Move(disp.(phase := Done(true)), items))
      else None
    case Abort =>
      if !disp.phase.Done? && (stopped || AllCancelled(items, disp.batch)) then Some(Move(disp.(aborted := true), items)) else None
  }

  // -------------------------------------------------------------------- the system

  datatype Collector = Waiting | Collecting(batch: seq<nat>) | Acquiring(batch: seq<nat>)
                     | Dropping(batch: seq<nat>, count: nat) | Returned(batch: seq<nat>)
  {
    function Batch(): seq<nat> { if Waiting? then [] else batch }
  }

  datatype State = State(
    maxInFlight: nat, maxBatchSize: int, stopped: bool, callers: nat, queue: seq<nat>,
    collector: Collector, slots: nat, dispatchers: seq<Dispatcher>, items: seq<Item>)

  /** `SetMaxInFlight` clamps to one. */
  function Init(maxInFlight: int, maxBatchSize: int): State {
    State(Max(1, maxInFlight), maxBatchSize, false, 0, [], Waiting, 0, [], [])
  }

  datatype Outcome = Accepted | Overloaded | Closed

  datatype Step = BeginSubmit | EndSubmit(requestId: string, outcome: Outcome)
                | Cancel(x: nat) | Take(x: nat) | Shutdown
                | First | More | WindowOver | Acquire | StopWaiting | StopAcquiring | DropOne
                | Dispatch(d: nat, act: Act)

  function MovedTo(items: seq<Item>, batch: seq<nat>, place: Place): (r: seq<Item>)
    ensures |r| == |items|
    ensures forall x :: 0 <= x < |items| ==> r[x] == if x in batch then items[x].(at := place) else items[x]
  {
    seq(|items|, x requires 0 <= x < |items| => if x in batch then items[x].(at := place) else items[x])
  }

  function IdsOf(items: seq<Item>, batch: seq<nat>): (r: seq<string>)
    requires forall j :: 0 <= j < |batch| ==> batch[j] < |items|
    ensures |r| == |batch| && forall j :: 0 <= j < |batch| ==> r[j] == items[batch[j]].requestId
  {
    seq(|batch|, j requires 0 <= j < |batch| => items[batch[j]].requestId)
  }

  /** The second `select` of TrySubmit: `default` only when no other case is ready. */
  function Submit(s: State, requestId: string, outcome: Outcome): Option<State> {
    if s.callers == 0 then None else
      var s1 := s.(callers := s.callers - 1);
      match outcome
      case Accepted =>
        if |s.queue| < SUBMIT_CAPACITY
        then Some(s1.(queue := s.queue + [|s.items|], items := s.items + [Item(requestId, Queued, false, [], [], 0, 0, 0)]))
        else None
      case Closed => if s.stopped then Some(s1) else None
      case Overloaded => if |s.queue| >= SUBMIT_CAPACITY && !s.stopped then Some(s1) else None
  }

  function Collect(s: State, step: Step): Option<State>
    requires step.First? || step.More?
  {
    if s.queue == [] then None else
      var x := s.queue[0];
      var s1 := s.(queue := s.queue[1..], items := MovedTo(s.items, [x], Collected));
      if step.First? then (if s.collector.Waiting? then Some(s1.(collector := Collecting([x]))) else None)
      else if s.collector.Collecting? && |s.collector.batch| < s.maxBatchSize
      then Some(s1.(collector := Collecting(s.collector.batch + [x]))) else None
  }

  function StartBatch(s: State): Option<State> {
    if !s.collector.Acquiring? || s.slots >= s.maxInFlight || exists j | 0 <= j < |s.collector.batch| :: s.collector.batch[j] >= |s.items|
    then None else
      var batch := s.collector.batch;
      var ids := IdsOf(s.items, batch);
      Some(s.(collector := Waiting, slots := s.slots + 1,
              items := MovedTo(s.items, batch, Dispatched(|s.dispatchers|)),
              dispatchers := s.dispatchers + [Dispatcher(batch, ids, BuildIndex(ids), Calling, false, [])]))
  }

  /** One item of the collector's own `failAll`. */
  function DropNext(s: State): Option<State> {
    if !s.collector.Dropping? then None
    else if s.collector.count >= |s.collector.batch| then Some(s.(collector := Returned(s.collector.batch)))
    else
      var x := s.collector.batch[s.collector.count];
      if x >= |s.items| then None
      else Some(s.(collector := Dropping(s.collector.batch, s.collector.count + 1),
                   items := s.items[x := s.items[x].Finish(CLOSED_FINAL)]))
  }

  /** A dispatcher's step; its last one gives the Batch Slot back. */
  ghost function DispatcherStep(s: State, d: nat, act: Act): Option<State> {
    if d >= |s.dispatchers| then None else
      var move := Advance(s.items, s.dispatchers[d], s.stopped, act);
      if move.None? then None
      else
        var s1 := s.(dispatchers := s.dispatchers[d := move.value.disp], items := move.value.items);
        if act.Leave? then (if s.slots == 0 then None else Some(s1.(slots := s.slots - 1))) else Some(s1)
  }

  /** One step of the whole system; None when it is not enabled. */
  ghost function Next(s: State, step: Step): Option<State> {
    match step
    case BeginSubmit => if s.stopped then None else Some(s.(callers := s.callers + 1))
    case EndSubmit(requestId, outcome) => Submit(s, requestId, outcome)
    case Cancel(x) => if x < |s.items| then Some(s.(items := s.items[x := s.items[x].(cancelled := true)])) else None
    case Take(x) =>
      if x < |s.items| && s.items[x].taken < |s.items[x].Sent()|
      then Some(s.(items := s.items[x := s.items[x].(taken := s.items[x].taken + 1)])) else None
    case Shutdown => Some(s.(stopped := true))
    case First => Collect(s, step)
    case More => Collect(s, step)
    case WindowOver => if s.collector.Collecting? then Some(s.(collector := Acquiring(s.collector.batch))) else None
    case Acquire => StartBatch(s)
    case StopWaiting => if s.collector.Waiting? && s.stopped then Some(s.(collector := Returned([]))) else None
    case StopAcquiring => if s.collector.Acquiring? && s.stopped then Some(s.(collector := Dropping(s.collector.batch, 0))) else None
    case DropOne => DropNext(s)
    case Dispatch(d, act) => DispatcherStep(s, d, act)
  }

  /** A run: any interleaving of enabled steps. */
  ghost function Run(s: State, steps: seq<Step>): Option<State> {
    if steps == [] then Some(s)
    else
      var before := Run(s, steps[..|steps| - 1]);
      if before.None? then None else Next(before.value, steps[|steps| - 1])
  }
}
