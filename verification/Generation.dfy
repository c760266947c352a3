/** One request's generation: from sampled tokens to events, and the reference loop that
    reruns the model on the whole sequence for every token. */
module Generations {
  import opened Wrappers
  import opened Transformer
  import opened ToolCalls
  import BlockPool

  type TokenId = i: int | 0 <= i < BlockPool.TWO_32

  /** `style` stands for temperature, top-k and top-p. */
  datatype Params = Params(maxTokens: int, style: int)

  datatype Request = Request(prompt: seq<TokenId>, params: Params, stopIds: set<int>, stopSequences: seq<string>)

  datatype Call = Call(name: string, arguments: string)

  datatype Reason = EndTurn | MaxTokens | ToolUse | Cancelled

  datatype Event =
    | Token(text: string)
    | ToolCall(call: Call)
    | Final(reason: Reason, promptTokens: nat, completionTokens: nat)

  /** What one run of the worker fixes: the model's depth, a deterministic sampler, what the
      streaming decoder returns for a token after given ones, and which payloads parse. */
  datatype World = World(
    depth: nat, sampler: imap<(Logits, Params), TokenId>, decoder: imap<(seq<int>, int), string>, json: imap<string, Call>)

  function Sample(w: World, logits: Logits, params: Params): TokenId {
    if (logits, params) in w.sampler then w.sampler[(logits, params)] else 0
  }

  function Chunk(w: World, before: seq<int>, tid: int): string {
    if (before, tid) in w.decoder then w.decoder[(before, tid)] else ""
  }

  /** The part of a sequence's state that its client can see. */
  datatype Generation = Generation(
    request: Request, tokenIds: seq<TokenId>, text: string, emitted: nat,
    toolMode: bool, generated: nat, finished: bool, events: seq<Event>)

  function Start(r: Request): Generation {
    Generation(r, r.prompt, "", 0, false, 0, false, [])
  }

  // ------------------------------------------------------------ tokens to events

  /** `_emit_text`. */
  function EmitText(g: Generation, upto: int): Generation
    requires upto <= |g.text|
  {
    if upto > g.emitted then g.(events := g.events + [Token(g.text[g.emitted..upto])], emitted := upto) else g
  }

  function CallEvents(calls: seq<Call>): (es: seq<Event>)
    ensures |es| == |calls| && forall i :: 0 <= i < |calls| ==> es[i] == ToolCall(calls[i])
  {
    if calls == [] then [] else CallEvents(calls[..|calls| - 1]) + [ToolCall(calls[|calls| - 1])]
  }

  /** `_finish`, as far as the client sees it. */
  function Finish(w: World, g: Generation, reason: Reason, flush: bool): Generation {
    if g.finished then g else
      var calls := if g.toolMode && reason != Cancelled then Parsed(Sections(g.text), w.json) else [];
      var g1 :=
        if g.toolMode then g.(events := g.events + CallEvents(calls))
        else if flush then EmitText(g, |g.text|) else g;
      var reason1 := if calls != [] then ToolUse else reason;
      g1.(finished := true, events := g1.events + [Final(reason1, |g.request.prompt|, g.generated)])
  }

  /** The first stop sequence that occurs; an empty one ends the search without a hit. */
  function Hit(stops: seq<string>, text: string): (r: Option<string>)
    ensures r.Some? ==> r.value in stops && r.value != "" && Occurs(text, r.value)
    ensures "" !in stops ==> (r.None? <==> forall s :: s in stops ==> !Occurs(text, s))
  {
    if stops == [] then None
    else if Find(text, stops[0]).Some? then (if stops[0] == "" then None else Some(stops[0]))
    else Hit(stops[1..], text)
  }

  /** The list decides: the first listed sequence that occurs, wherever in the text it does; an
      empty one before it occurs everywhere and hides it. */
  lemma {:induction false} HitIsFirstListed(stops: seq<string>, text: string, i: nat)
    requires i < |stops| && Occurs(text, stops[i]) && forall j :: 0 <= j < i ==> !Occurs(text, stops[j])
    ensures Hit(stops, text) == if stops[i] == "" then None else Some(stops[i])
  {
    if i > 0 {
      assert !Occurs(text, stops[0]);
      HitIsFirstListed(stops[1..], text, i - 1);
    }
  }

  /** The state after `tid` was decoded, before anything is sent. */
  function Received(w: World, g: Generation, tid: TokenId): Generation {
    g.(generated := g.generated + 1, tokenIds := g.tokenIds + [tid],
       text := g.text + Chunk(w, Answer(g), tid))
  }

  /** The tokens generated so far. */
  function Answer(g: Generation): seq<TokenId> {
    if |g.request.prompt| <= |g.tokenIds| then g.tokenIds[|g.request.prompt|..] else []
  }

  /** Sends what cannot be part of a tool call. */
  function Stream(g: Generation): Generation {
    if g.toolMode then g else
      var marker := Find(g.text, OPEN);
      if marker.Some? then EmitText(g.(toolMode := true), marker.value)
      else EmitText(g, |g.text| - MarkerHoldback(g.text))
  }

  /** `_emit_or_finish`. */
  function EmitOrFinish(w: World, g: Generation, tid: TokenId): Generation {
    if tid in g.request.stopIds then Finish(w, g, EndTurn, true) else
      var g1 := Received(w, g, tid);
      var hit := Hit(g1.request.stopSequences, g1.text);
      if hit.Some? then Finish(w, EmitText(g1, Find(g1.text, hit.value).value), EndTurn, false)
      else
        var g2 := Stream(g1);
        if g2.generated >= g2.request.params.maxTokens then Finish(w, g2, MaxTokens, true) else g2
  }

  // ------------------------------------------------------------ the reference loop

  /** One step of the naive loop: a full pass over everything so far, one sample. */
  function Next(w: World, g: Generation): Generation {
    if g.finished || g.tokenIds == [] then g
    else if g.request.params.maxTokens <= 0 then Finish(w, g, MaxTokens, true)
    else EmitOrFinish(w, g, Sample(w, FullLogits(w.depth, g.tokenIds), g.request.params))
  }

  function Naive(w: World, r: Request, n: nat): Generation {
    if n == 0 then Start(r) else Next(w, Naive(w, r, n - 1))
  }

  // ------------------------------------------------------------------ invariants

  ghost predicate NoFinal(events: seq<Event>) {
    forall i :: 0 <= i < |events| ==> !events[i].Final?
  }

  /** The text of the token events, joined. */
  function Sent(events: seq<Event>): string {
    if events == [] then "" else
      var last := events[|events| - 1];
      Sent(events[..|events| - 1]) + (if last.Token? then last.text else "")
  }

  /** The chunks of `ids` joined: everything the decoder returned. */
  function Decoded(w: World, ids: seq<int>): string {
    if ids == [] then "" else Decoded(w, ids[..|ids| - 1]) + Chunk(w, ids[..|ids| - 1], ids[|ids| - 1])
  }

  /** Exactly one final event, at the end, iff finished; its usage counts the tokens. */
  ghost predicate OneFinal(g: Generation) {
    if g.finished then
      && g.events != [] && NoFinal(g.events[..|g.events| - 1])
      && var last := g.events[|g.events| - 1];
         last.Final? && last.promptTokens == |g.request.prompt| && last.completionTokens == g.generated
    else NoFinal(g.events)
  }

  ghost predicate Counts(w: World, g: Generation) {
    && |g.tokenIds| == |g.request.prompt| + g.generated && g.tokenIds[..|g.request.prompt|] == g.request.prompt
    && g.generated <= Max(0, g.request.params.maxTokens)
    && (g.generated == Max(0, g.request.params.maxTokens) > 0 ==> g.finished)
    && g.text == Decoded(w, Answer(g))
  }

  /** The token events carry exactly the emitted part of the text. */
  ghost predicate SentIsText(g: Generation) {
    g.emitted <= |g.text| && Sent(g.events) == g.text[..g.emitted]
  }

  ghost predicate Good(w: World, g: Generation) {
    OneFinal(g) && Counts(w, g) && SentIsText(g)
  }

  lemma SentOne(events: seq<Event>, e: Event)
    ensures Sent(events + [e]) == Sent(events) + (if e.Token? then e.text else "")
  {
    assert (events + [e])[..|events|] == events;
  }

  lemma {:induction false} SentCalls(events: seq<Event>, calls: seq<Call>)
    ensures Sent(events + CallEvents(calls)) == Sent(events)
    ensures NoFinal(events) ==> NoFinal(events + CallEvents(calls))
    decreases |calls|
  {
    hide Sent;
    if calls == [] {
      assert events + CallEvents(calls) == events;
    } else {
      var init, last := calls[..|calls| - 1], ToolCall(calls[|calls| - 1]);
      SentCalls(events, init);
      SentOne(events + CallEvents(init), last);
      assert events + CallEvents(calls) == events + CallEvents(init) + [last];
    }
  }

  lemma EmitTextKeeps(g: Generation, upto: int)
    requires upto <= |g.text| && SentIsText(g) && NoFinal(g.events)
    ensures var g' := EmitText(g, upto);
      SentIsText(g') && NoFinal(g'.events) && g' == g.(events := g'.events, emitted := g'.emitted) &&
      g'.emitted == Max(g.emitted, upto)
  {
    if upto > g.emitted {
      SentOne(g.events, Token(g.text[g.emitted..upto]));
      assert g.text[..g.emitted] + g.text[g.emitted..upto] == g.text[..upto];
    }
  }

  lemma FinishKeeps(w: World, g: Generation, reason: Reason, flush: bool)
    requires !g.finished && SentIsText(g) && NoFinal(g.events)
    ensures var g' := Finish(w, g, reason, flush);
      OneFinal(g') && SentIsText(g') && g' == g.(events := g'.events, emitted := g'.emitted, finished := true) &&
      g'.emitted == if flush && !g.toolMode then |g.text| else g.emitted
  {
    hide Sent, Sections, Parsed, CallEvents;
    var calls := if g.toolMode && reason != Cancelled then Parsed(Sections(g.text), w.json) else [];
    var g1 :=
      if g.toolMode then g.(events := g.events + CallEvents(calls))
      else if flush then EmitText(g, |g.text|) else g;
    if g.toolMode {
      SentCalls(g.events, calls);
    } else if flush {
      EmitTextKeeps(g, |g.text|);
    }
    var final := Final(if calls != [] then ToolUse else reason, |g.request.prompt|, g.generated);
    SentOne(g1.events, final);
    assert (g1.events + [final])[..|g1.events|] == g1.events;
  }

  /** What is known when a token has been decoded but not yet sent. */
  ghost predicate Pending(w: World, g: Generation) {
    && !g.finished && NoFinal(g.events) && SentIsText(g)
    && |g.tokenIds| == |g.request.prompt| + g.generated && g.tokenIds[..|g.request.prompt|] == g.request.prompt
    && g.generated <= Max(0, g.request.params.maxTokens) && g.text == Decoded(w, Answer(g))
  }

  lemma ReceivedIsPending(w: World, g: Generation, tid: TokenId)
    requires Good(w, g) && !g.finished && g.request.params.maxTokens > 0
    ensures Pending(w, Received(w, g, tid)) && Received(w, g, tid).generated == g.generated + 1
  {
    var g' := Received(w, g, tid);
    assert Answer(g') == Answer(g) + [tid];
    assert Answer(g')[..|Answer(g)|] == Answer(g);
    assert g'.text[..g'.emitted] == g.text[..g.emitted];
  }

  lemma FinishFinishes(w: World, g: Generation, reason: Reason, flush: bool)
    ensures var g' := Finish(w, g, reason, flush);
      g'.finished && g'.request == g.request && g'.tokenIds == g.tokenIds && g'.generated == g.generated
  {
  }

  ghost predicate SameTokens(g: Generation, g': Generation) {
    g'.request == g.request && g'.tokenIds == g.tokenIds && g'.generated == g.generated && g'.finished == g.finished
  }

  lemma EmitTextKeepsTokens(g: Generation, upto: int)
    requires upto <= |g.text|
    ensures SameTokens(g, EmitText(g, upto))
  {
  }

  lemma StreamKeepsTokens(g: Generation)
    ensures SameTokens(g, Stream(g))
  {
  }

  lemma StreamKeepsPending(w: World, g: Generation)
    requires Pending(w, g)
    ensures Pending(w, Stream(g)) && Stream(g).generated == g.generated
  {
    if !g.toolMode {
      var marker := Find(g.text, OPEN);
      if marker.Some? {
        EmitTextKeeps(g.(toolMode := true), marker.value);
      } else {
        EmitTextKeeps(g, |g.text| - MarkerHoldback(g.text));
      }
    }
  }

  /** A token either ends the generation or leaves it with one token more. */
  lemma EmitOrFinishKeepsGood(w: World, g: Generation, tid: TokenId)
    requires Good(w, g) && !g.finished && g.request.params.maxTokens > 0
    ensures var g' := EmitOrFinish(w, g, tid);
      Good(w, g') && g'.request == g.request && (!g'.finished ==> g'.generated == g.generated + 1 < g.request.params.maxTokens)
  {
    hide Sent, Decoded, Sections, Parsed, Find, Hit;
    if tid in g.request.stopIds {
      FinishKeeps(w, g, EndTurn, true);
    } else {
      var g1 := Received(w, g, tid);
      ReceivedIsPending(w, g, tid);
      var hit := Hit(g1.request.stopSequences, g1.text);
      if hit.Some? {
        var cut := Find(g1.text, hit.value).value;
        EmitTextKeeps(g1, cut);
        FinishKeeps(w, EmitText(g1, cut), EndTurn, false);
      } else {
        var g2 := Stream(g1);
        StreamKeepsPending(w, g1);
        if g2.generated >= g2.request.params.maxTokens {
          FinishKeeps(w, g2, MaxTokens, true);
        }
      }
    }
  }

  lemma StartIsGood(w: World, r: Request)
    ensures Good(w, Start(r))
  {
    assert Answer(Start(r)) == [];
  }

  /** Every state of the reference loop is good; unfinished after `n` steps means `n` tokens. */
  lemma {:induction false} NaiveIsGood(w: World, r: Request, n: nat)
    requires r.prompt != []
    ensures var g := Naive(w, r, n);
      Good(w, g) && g.request == r && (!g.finished ==> g.generated == n && (n == 0 || n < r.params.maxTokens))
  {
    hide EmitOrFinish, Finish, Sent;
    if n == 0 {
      StartIsGood(w, r);
    } else {
      NaiveIsGood(w, r, n - 1);
      var g := Naive(w, r, n - 1);
      if !g.finished {
        if r.params.maxTokens <= 0 {
          FinishKeeps(w, g, MaxTokens, true);
        } else {
          EmitOrFinishKeepsGood(w, g, Sample(w, FullLogits(w.depth, g.tokenIds), r.params));
        }
      }
    }
  }

  /** The answer the client is owed. */
  function Reference(w: World, r: Request): Generation {
    Naive(w, r, Max(1, r.params.maxTokens))
  }

  /** The loop ends within `max(1, max_tokens)` steps. */
  lemma ReferenceIsFinished(w: World, r: Request)
    requires r.prompt != []
    ensures Reference(w, r).finished && Good(w, Reference(w, r))
  {
    NaiveIsGood(w, r, Max(1, r.params.maxTokens));
  }

  lemma {:induction false} FinishedStays(w: World, r: Request, n: nat, m: nat)
    requires n <= m && Naive(w, r, n).finished
    ensures Naive(w, r, m) == Naive(w, r, n)
    decreases m
  {
    if n < m {
      FinishedStays(w, r, n, m - 1);
    }
  }

  /** A state that finished on its way is the reference answer. */
  lemma FinishedIsReference(w: World, r: Request, n: nat)
    requires r.prompt != [] && Naive(w, r, n).finished
    ensures Naive(w, r, n) == Reference(w, r)
  {
    var m := Max(1, r.params.maxTokens);
    ReferenceIsFinished(w, r);
    if n <= m {
      FinishedStays(w, r, n, m);
    } else {
      FinishedStays(w, r, m, n);
    }
  }

  // ------------------------------------------------------------------- hold-back

  /** What may have been sent of `text`: everything before a tool-call marker. */
  function Visible(text: string): nat {
    var marker := Find(text, OPEN);
    if marker.Some? then marker.value else |text|
  }

  /** In tool mode the text was cut at the marker; otherwise only a possible start of one is
      held back, until the end. */
  ghost predicate HeldBack(g: Generation) {
    && (g.toolMode <==> Occurs(g.text, OPEN))
    && g.emitted == (if g.toolMode || g.finished then Visible(g.text) else |g.text| - MarkerHoldback(g.text))
  }

  lemma StreamHoldsBack(g: Generation, before: string, more: string)
    requires g.text == before + more && !g.finished
    requires HeldBack(g.(text := before))
    ensures HeldBack(Stream(g)) && g.emitted <= Stream(g).emitted <= Visible(g.text)
  {
    if g.toolMode {
      FirstOccurrenceStays(before, more, OPEN);
    } else {
      ReleasedGrows(before, more);
      if Occurs(g.text, OPEN) {
        HoldbackIsSafe(before, more, Find(g.text, OPEN).value);
      }
    }
  }

  /** A token that no stop sequence ends keeps the hold-back. */
  lemma EmitOrFinishHoldsBack(w: World, g: Generation, tid: TokenId)
    requires Good(w, g) && HeldBack(g) && !g.finished && g.request.params.maxTokens > 0
    requires tid in g.request.stopIds || Hit(g.request.stopSequences, Received(w, g, tid).text).None?
    ensures HeldBack(EmitOrFinish(w, g, tid)) && EmitOrFinish(w, g, tid).emitted >= g.emitted
    ensures EmitOrFinish(w, g, tid).text == if tid in g.request.stopIds then g.text else Received(w, g, tid).text
  {
    hide Sent, Decoded, Sections, Parsed, Find, MarkerHoldback, Hit;
    if tid in g.request.stopIds {
      FinishHoldsBack(w, g, EndTurn);
    } else {
      var g1 := Received(w, g, tid);
      ReceivedIsPending(w, g, tid);
      assert g1.(text := g.text) == g.(generated := g1.generated, tokenIds := g1.tokenIds);
      StreamHoldsBack(g1, g.text, Chunk(w, Answer(g), tid));
      StreamKeepsPending(w, g1);
      if Stream(g1).generated >= g1.request.params.maxTokens {
        FinishHoldsBack(w, Stream(g1), MaxTokens);
      }
    }
  }

  lemma FinishHoldsBack(w: World, g: Generation, reason: Reason)
    requires !g.finished && SentIsText(g) && NoFinal(g.events) && HeldBack(g)
    ensures HeldBack(Finish(w, g, reason, true)) && Finish(w, g, reason, true).emitted >= g.emitted
    ensures Finish(w, g, reason, true).text == g.text
  {
    FinishKeeps(w, g, reason, true);
  }

  lemma StartHoldsBack(r: Request)
    ensures HeldBack(Start(r))
  {
    assert !Occurs("", OPEN);
  }

  lemma {:induction false} NothingHitsNothing(stops: seq<string>)
    ensures Hit(stops, "").None?
  {
    if stops != [] {
      NothingHitsNothing(stops[1..]);
    }
  }

  /** Marker hold-back, for every way the text is cut into chunks and any stop sequences: every
      state that no stop sequence ended has sent exactly the text before the first marker, or
      before a possible start of one.  No stop sequence occurs in the text of a running state. */
  lemma {:induction false} NaiveHoldsBack(w: World, r: Request, n: nat)
    requires r.prompt != []
    ensures var g := Naive(w, r, n);
      && (Hit(r.stopSequences, g.text).None? ==> HeldBack(g))
      && (!g.finished ==> Hit(r.stopSequences, g.text).None?)
  {
    hide EmitOrFinish, Finish, Sent, Decoded, Find, MarkerHoldback, Hit, HeldBack;
    if n == 0 {
      StartHoldsBack(r);
      NothingHitsNothing(r.stopSequences);
    } else {
      NaiveHoldsBack(w, r, n - 1);
      NaiveIsGood(w, r, n - 1);
      var g := Naive(w, r, n - 1);
      if !g.finished {
        if r.params.maxTokens <= 0 {
          FinishHoldsBack(w, g, MaxTokens);
        } else {
          NextHoldsBack(w, g, Sample(w, FullLogits(w.depth, g.tokenIds), r.params));
        }
      }
    }
  }

  lemma NextHoldsBack(w: World, g: Generation, tid: TokenId)
    requires Good(w, g) && HeldBack(g) && !g.finished && g.request.params.maxTokens > 0
    requires Hit(g.request.stopSequences, g.text).None?
    ensures var g' := EmitOrFinish(w, g, tid);
      && (Hit(g.request.stopSequences, g'.text).None? ==> HeldBack(g'))
      && (!g'.finished ==> Hit(g.request.stopSequences, g'.text).None?)
  {
    hide Sent, Decoded, Find, MarkerHoldback, Hit, HeldBack, Stream, Sections, Parsed, Good;
    if tid in g.request.stopIds || Hit(g.request.stopSequences, Received(w, g, tid).text).None? {
      EmitOrFinishHoldsBack(w, g, tid);
    } else {
      HitFinishes(w, g, tid);
    }
  }

  /** A hit ends the answer, with the whole text received kept. */
  lemma HitFinishes(w: World, g: Generation, tid: TokenId)
    requires tid !in g.request.stopIds && !g.finished
    requires Hit(g.request.stopSequences, Received(w, g, tid).text).Some?
    ensures var g' := EmitOrFinish(w, g, tid);
      g'.finished && g'.request == g.request && g'.text == Received(w, g, tid).text
  {
    hide Find, Hit, Sections, Parsed, CallEvents;
  }

  lemma FinishAppends(w: World, g: Generation, reason: Reason, flush: bool)
    ensures g.events <= Finish(w, g, reason, flush).events
  {
    hide Sections, Parsed, CallEvents;
  }

  lemma StreamAppends(g: Generation)
    ensures g.events <= Stream(g).events
  {
    hide Find, MarkerHoldback;
  }

  lemma EmitOrFinishAppends(w: World, g: Generation, tid: TokenId)
    ensures g.events <= EmitOrFinish(w, g, tid).events
  {
    hide Finish, Stream, Hit;
    var g1 := Received(w, g, tid);
    var hit := Hit(g1.request.stopSequences, g1.text);
    FinishAppends(w, g, EndTurn, true);
    if hit.Some? {
      FinishAppends(w, EmitText(g1, Find(g1.text, hit.value).value), EndTurn, false);
    }
    StreamAppends(g1);
    FinishAppends(w, Stream(g1), MaxTokens, true);
  }

  lemma {:induction false} NaiveEventsGrow(w: World, r: Request, n: nat, m: nat)
    requires n <= m
    ensures Naive(w, r, n).events <= Naive(w, r, m).events
    decreases m
  {
    hide EmitOrFinish, Finish;
    if n < m {
      NaiveEventsGrow(w, r, n, m - 1);
      var g := Naive(w, r, m - 1);
      FinishAppends(w, g, MaxTokens, true);
      if g.tokenIds != [] {
        EmitOrFinishAppends(w, g, Sample(w, FullLogits(w.depth, g.tokenIds), g.request.params));
      }
    }
  }

  lemma {:induction false} SentGrows(a: seq<Event>, b: seq<Event>)
    requires a <= b
    ensures Sent(a) <= Sent(b)
    decreases |b|
  {
    if |a| < |b| {
      SentGrows(a, b[..|b| - 1]);
    } else {
      assert a == b;
    }
  }

  /** The stop sequence that ended the answer starts behind the start of a tool-call marker. */
  predicate CutPastMarker(stops: seq<string>, text: string) {
    var hit := Hit(stops, text);
    hit.Some? && Find(text, hit.value).value > Visible(text)
  }

  /** A stop sequence ends the stream at its first occurrence, unless part of it had already
      been sent; the marker stays hidden exactly when that is not behind it. */
  lemma StopSequenceCuts(w: World, g: Generation, tid: TokenId)
    requires Good(w, g) && !g.finished && g.request.params.maxTokens > 0 && tid !in g.request.stopIds
    requires Hit(g.request.stopSequences, Received(w, g, tid).text).Some?
    ensures var g', text := EmitOrFinish(w, g, tid), Received(w, g, tid).text;
      var cut := Find(text, Hit(g.request.stopSequences, text).value).value;
      && g'.finished && g'.text == text && Sent(g'.events) == text[..Max(g.emitted, cut)]
      && (HeldBack(g) ==> g.emitted <= Visible(text) && (Sent(g'.events) <= text[..Visible(text)] <==> cut <= Visible(text)))
  {
    hide Sent, Decoded, Sections, Parsed, Hit, Find, MarkerHoldback;
    var g1 := Received(w, g, tid);
    ReceivedIsPending(w, g, tid);
    var cut := Find(g1.text, Hit(g.request.stopSequences, g1.text).value).value;
    EmitTextKeeps(g1, cut);
    FinishKeeps(w, EmitText(g1, cut), EndTurn, false);
    if HeldBack(g) {
      assert g1.(text := g.text) == g.(generated := g1.generated, tokenIds := g1.tokenIds);
      StreamHoldsBack(g1, g.text, Chunk(w, Answer(g), tid));
    }
  }

  /** The last state before the answer. */
  lemma {:induction false} LastRunning(w: World, r: Request, n: nat) returns (k: nat)
    requires Naive(w, r, n).finished
    ensures k < n && !Naive(w, r, k).finished && Naive(w, r, k + 1) == Naive(w, r, n)
    decreases n
  {
    hide Next;
    assert n > 0;
    if Naive(w, r, n - 1).finished {
      FinishedStays(w, r, n - 1, n);
      k := LastRunning(w, r, n - 1);
    } else {
      k := n - 1;
    }
  }

  /** What a finished request has been sent: the text before the first marker, or the whole text,
      unless a stop sequence cut it; then up to the cut at least.  The marker stays hidden exactly
      when the stop sequence that ended the answer does not start behind the marker's start. */
  lemma FinishedStreamStopsAtMarker(w: World, r: Request)
    requires r.prompt != []
    ensures var g := Reference(w, r);
      && (Hit(r.stopSequences, g.text).None? ==> Sent(g.events) == g.text[..Visible(g.text)])
      && (CutPastMarker(r.stopSequences, g.text) ==>
            Sent(g.events) == g.text[..Find(g.text, Hit(r.stopSequences, g.text).value).value])
      && (Sent(g.events) <= g.text[..Visible(g.text)] <==> !CutPastMarker(r.stopSequences, g.text))
  {
    hide EmitOrFinish, Finish, Sent, Decoded, Find, MarkerHoldback, Hit, FullLogits;
    var m := Max(1, r.params.maxTokens);
    ReferenceIsFinished(w, r);
    NaiveHoldsBack(w, r, m);
    var g := Reference(w, r);
    if Hit(r.stopSequences, g.text).Some? {
      var k, tid := HitStep(w, r);
      StopSequenceCuts(w, Naive(w, r, k), tid);
    }
  }

  /** If a stop sequence occurs in the answer's text, its last token brought it. */
  lemma HitStep(w: World, r: Request) returns (k: nat, tid: TokenId)
    requires r.prompt != [] && Hit(r.stopSequences, Reference(w, r).text).Some?
    ensures var g := Naive(w, r, k);
      && !g.finished && Good(w, g) && HeldBack(g) && g.request == r && r.params.maxTokens > 0
      && tid !in r.stopIds && Hit(r.stopSequences, Received(w, g, tid).text).Some?
      && Naive(w, r, k + 1) == EmitOrFinish(w, g, tid) == Reference(w, r)
      && Received(w, g, tid).text == Reference(w, r).text
  {
    hide EmitOrFinish, Finish, Sent, Decoded, Find, MarkerHoldback, Hit, HeldBack, FullLogits, Good;
    var m := Max(1, r.params.maxTokens);
    ReferenceIsFinished(w, r);
    k := LastRunning(w, r, m);
    NaiveIsGood(w, r, k);
    NaiveHoldsBack(w, r, k);
    var g := Naive(w, r, k);
    tid := Sample(w, FullLogits(w.depth, g.tokenIds), r.params);
    GoodFinish(w, g);
    if tid in r.stopIds || Hit(r.stopSequences, Received(w, g, tid).text).None? {
      if r.params.maxTokens > 0 {
        EmitOrFinishHoldsBack(w, g, tid);
      }
    } else {
      HitFinishes(w, g, tid);
    }
  }

  lemma GoodFinish(w: World, g: Generation)
    requires Good(w, g) && !g.finished && g.request.prompt != []
    ensures g.tokenIds != [] && Finish(w, g, MaxTokens, true).text == g.text
  {
    hide Sent, Decoded, Sections, Parsed;
    FinishKeeps(w, g, MaxTokens, true);
  }

  /** What has been sent at any earlier time never passes the marker, nor does the answer itself
      unless a stop sequence starts behind it. */
  lemma StreamNeverPassesMarker(w: World, r: Request, n: nat)
    requires r.prompt != []
    ensures var text := Reference(w, r).text;
      !Naive(w, r, n).finished || !CutPastMarker(r.stopSequences, text) ==> Sent(Naive(w, r, n).events) <= text[..Visible(text)]
  {
    hide Naive, Sent, Find, Hit, Good, Next, HeldBack, EmitOrFinish, Received, FullLogits, Visible;
    FinishedStreamStopsAtMarker(w, r);
    ReferenceIsFinished(w, r);
    if Naive(w, r, n).finished {
      FinishedIsReference(w, r, n);
    } else if CutPastMarker(r.stopSequences, Reference(w, r).text) {
      var k, tid := HitStep(w, r);
      RunningIsBefore(w, r, n, k);
      SentInOrder(w, r, n, k);
      RunningStaysBehind(w, Naive(w, r, k), tid);
    } else {
      var m := Max(1, r.params.maxTokens);
      assert Reference(w, r) == Naive(w, r, m);
      RunningIsBefore(w, r, n, m - 1);
      SentInOrder(w, r, n, m);
    }
  }

  /** A running state comes no later than the last one. */
  lemma RunningIsBefore(w: World, r: Request, n: nat, k: nat)
    requires !Naive(w, r, n).finished && Naive(w, r, k + 1).finished
    ensures n <= k
  {
    hide Next;
    if n > k {
      FinishedStays(w, r, k + 1, n);
    }
  }

  /** What has been sent stays sent. */
  lemma SentInOrder(w: World, r: Request, n: nat, m: nat)
    requires n <= m
    ensures Sent(Naive(w, r, n).events) <= Sent(Naive(w, r, m).events)
  {
    hide Naive, Sent;
    NaiveEventsGrow(w, r, n, m);
    SentGrows(Naive(w, r, n).events, Naive(w, r, m).events);
  }

  /** What a running state has sent lies before the marker of any text it grows into. */
  lemma RunningStaysBehind(w: World, g: Generation, tid: TokenId)
    requires Good(w, g) && HeldBack(g) && !g.finished && g.request.params.maxTokens > 0
    ensures var text := Received(w, g, tid).text; Sent(g.events) <= text[..Visible(text)]
  {
    hide Sent, Decoded, Find, MarkerHoldback;
    var g1 := Received(w, g, tid);
    assert g1.(text := g.text) == g.(generated := g1.generated, tokenIds := g1.tokenIds);
    StreamHoldsBack(g1, g.text, Chunk(w, Answer(g), tid));
  }

  /** Ending a running state sends the rest of what may be sent. */
  lemma CutHoldsBack(w: World, g: Generation)
    requires Good(w, g) && HeldBack(g) && !g.finished
    ensures var cut := Finish(w, g, Cancelled, true);
      cut.request == g.request && cut.text == g.text && Sent(cut.events) == cut.text[..Visible(cut.text)]
  {
    hide Sent, Find, Decoded, Sections, Parsed;
    FinishHoldsBack(w, g, Cancelled);
    FinishKeeps(w, g, Cancelled, true);
  }

  /** A request whose client is sent the marker: one token, and a stop sequence right behind. */
  lemma MarkerLeaks()
    ensures var w := World(0, imap[], imap[([], 0) := OPEN + "X"], imap[]);
      var r := Request([0], Params(1, 0), {}, ["X"]);
      && CutPastMarker(r.stopSequences, Reference(w, r).text)
      && Sent(Reference(w, r).events) == OPEN && Visible(Reference(w, r).text) == 0
  {
    var w := World(0, imap[], imap[([], 0) := OPEN + "X"], imap[]);
    var r := Request([0], Params(1, 0), {}, ["X"]);
    var text := OPEN + "X";
    assert OccursAt(text, OPEN, 0) && OccursAt(text, "X", 11);
    assert Hit(r.stopSequences, text) == Some("X");
    assert Find(text, "X") == Some(11) by {
      forall i: nat | i < 11
        ensures !OccursAt(text, "X", i)
      {
        assert text[i] == OPEN[i] != 'X';
        assert text[i..i + 1][0] == text[i];
      }
    }
    LeakingStep(w, r, text);
    FinishedStreamStopsAtMarker(w, r);
    assert text[..11] == OPEN;
  }

  lemma LeakingStep(w: World, r: Request, text: string)
    requires r.prompt == [0] && r.params.maxTokens == 1 && r.stopIds == {}
    requires w.sampler == imap[] && Chunk(w, [], 0) == text && Hit(r.stopSequences, text).Some?
    ensures Reference(w, r).text == text
  {
    hide Hit, Find, FullLogits, EmitOrFinish;
    var g := Start(r);
    assert Naive(w, r, 0) == g;
    assert Answer(g) == [];
    assert "" + text == text;
    HitFinishes(w, g, 0);
  }

  // ------------------------------------------------------------ how an answer ends

  /** The calls of the tool-call events, in order. */
  function Calls(events: seq<Event>): seq<Call> {
    if events == [] then [] else
      var last := events[|events| - 1];
      Calls(events[..|events| - 1]) + (if last.ToolCall? then [last.call] else [])
  }

  ghost predicate NoCalls(events: seq<Event>) {
    forall i :: 0 <= i < |events| ==> !events[i].ToolCall?
  }

  /** No text follows a tool call. */
  ghost predicate CallsLast(events: seq<Event>) {
    forall i, j :: 0 <= i < j < |events| && events[i].ToolCall? ==> !events[j].Token?
  }

  /** Each token is the sample of a full pass over everything before it, and none is a stop id. */
  ghost predicate Sampled(w: World, g: Generation) {
    var n := |g.request.prompt|;
    0 < n <= |g.tokenIds| && forall k :: n <= k < |g.tokenIds| ==>
      g.tokenIds[k] == Sample(w, FullLogits(w.depth, g.tokenIds[..k]), g.request.params) && g.tokenIds[k] !in g.request.stopIds
  }

  /** The text without the last token's chunk. */
  function TextBefore(w: World, g: Generation): string {
    var ids := Answer(g);
    if ids == [] then "" else Decoded(w, ids[..|ids| - 1])
  }

  /** The calls that an answer which was not cancelled owes: those of its text; when a stop
      sequence ended it, only if a marker stood there before the last token. */
  function OwedCalls(w: World, g: Generation): seq<Call> {
    if Hit(g.request.stopSequences, g.text).None? || Find(TextBefore(w, g), OPEN).Some?
    then Parsed(Sections(g.text), w.json) else []
  }

  /** A stop sequence occurs, or the next token would have been a stop id. */
  ghost predicate Stopped(w: World, g: Generation)
    requires g.tokenIds != []
  {
    || Hit(g.request.stopSequences, g.text).Some?
    || (g.generated < g.request.params.maxTokens && Sample(w, FullLogits(w.depth, g.tokenIds), g.request.params) in g.request.stopIds)
  }

  /** What a client is told at the end: the calls its text owes, behind all text, and why the
      answer ended, a stop or the token limit; a cancelled answer has no calls. */
  ghost predicate Concluded(w: World, g: Generation) {
    && Sampled(w, g) && CallsLast(g.events) && g.events != []
    && var last := g.events[|g.events| - 1];
       && last.Final?
       && Calls(g.events) == (if last.reason == Cancelled then [] else OwedCalls(w, g))
       && (last.reason != Cancelled ==>
             && (Stopped(w, g) || g.generated >= g.request.params.maxTokens)
             && last.reason == if OwedCalls(w, g) != [] then ToolUse else if Stopped(w, g) then EndTurn else MaxTokens)
  }

  lemma {:induction false} NoCallsNone(events: seq<Event>)
    requires NoCalls(events)
    ensures Calls(events) == []
  {
    if events != [] {
      NoCallsNone(events[..|events| - 1]);
    }
  }

  lemma CallsOne(events: seq<Event>, e: Event)
    ensures Calls(events + [e]) == Calls(events) + (if e.ToolCall? then [e.call] else [])
  {
    assert (events + [e])[..|events|] == events;
  }

  lemma {:induction false} CallsOfCalls(events: seq<Event>, calls: seq<Call>)
    requires NoCalls(events)
    ensures Calls(events + CallEvents(calls)) == calls
    decreases |calls|
  {
    hide Calls;
    if calls == [] {
      assert events + CallEvents(calls) == events;
      NoCallsNone(events);
    } else {
      var init, last := calls[..|calls| - 1], ToolCall(calls[|calls| - 1]);
      CallsOfCalls(events, init);
      CallsOne(events + CallEvents(init), last);
      assert events + CallEvents(calls) == events + CallEvents(init) + [last];
    }
  }

  /** The end of an answer, for any reason. */
  lemma FinishTells(w: World, g: Generation, reason: Reason, flush: bool)
    requires !g.finished && NoCalls(g.events) && g.emitted <= |g.text|
    ensures var g' := Finish(w, g, reason, flush);
      var calls := if g.toolMode && reason != Cancelled then Parsed(Sections(g.text), w.json) else [];
      && CallsLast(g'.events) && Calls(g'.events) == calls && g'.events != []
      && g'.events[|g'.events| - 1] == Final(if calls != [] then ToolUse else reason, |g.request.prompt|, g.generated)
      && g'.request == g.request && g'.tokenIds == g.tokenIds && g'.generated == g.generated && g'.text == g.text
      && g'.toolMode == g.toolMode
  {
    hide Calls, Sections, Parsed, CallEvents;
    var calls := if g.toolMode && reason != Cancelled then Parsed(Sections(g.text), w.json) else [];
    var g1 := if g.toolMode || !flush then g else EmitText(g, |g.text|);
    var final := Final(if calls != [] then ToolUse else reason, |g.request.prompt|, g.generated);
    CallsOfCalls(g1.events, calls);
    CallsOne(g1.events + CallEvents(calls), final);
    NoCallsNone(g1.events);
    CallsOne(g1.events, final);
    assert g.toolMode ==> Finish(w, g, reason, flush).events == g1.events + CallEvents(calls) + [final];
    assert !g.toolMode ==> Finish(w, g, reason, flush).events == g1.events + [final];
  }

  lemma StreamSendsNoCalls(g: Generation)
    requires NoCalls(g.events)
    ensures NoCalls(Stream(g).events)
  {
    hide Find, MarkerHoldback;
  }

  lemma NextSendsNoCalls(w: World, g: Generation)
    requires NoCalls(g.events) && g.tokenIds != []
    ensures !Next(w, g).finished ==> NoCalls(Next(w, g).events)
  {
    hide Stream, Finish, Hit, Find, FullLogits, Sample, NoCalls;
    FinishFinishes(w, g, MaxTokens, true);
    var tid := Sample(w, FullLogits(w.depth, g.tokenIds), g.request.params);
    var g1 := Received(w, g, tid);
    StreamSendsNoCalls(g1);
    FinishFinishes(w, g, EndTurn, true);
    FinishFinishes(w, Stream(g1), MaxTokens, true);
    if Hit(g1.request.stopSequences, g1.text).Some? {
      FinishFinishes(w, EmitText(g1, Find(g1.text, Hit(g1.request.stopSequences, g1.text).value).value), EndTurn, false);
    }
  }

  lemma {:induction false} RunningSendsNoCalls(w: World, r: Request, n: nat)
    requires r.prompt != []
    ensures !Naive(w, r, n).finished ==> NoCalls(Naive(w, r, n).events)
  {
    hide Next, NoCalls;
    if n == 0 {
      StartSendsNothing(r);
    } else {
      RunningSendsNoCalls(w, r, n - 1);
      var g := Naive(w, r, n - 1);
      FinishedStaysPut(w, g);
      if !g.finished {
        NaiveHasTokens(w, r, n - 1);
        NextSendsNoCalls(w, g);
      }
    }
  }

  lemma StartSendsNothing(r: Request)
    ensures NoCalls(Start(r).events)
  {
  }

  lemma FinishedStaysPut(w: World, g: Generation)
    ensures g.finished ==> Next(w, g) == g
  {
  }

  lemma NaiveHasTokens(w: World, r: Request, n: nat)
    requires r.prompt != []
    ensures Naive(w, r, n).tokenIds != [] && Naive(w, r, n).request == r
  {
    hide Naive, Sent, Decoded;
    NaiveIsGood(w, r, n);
  }

  /** A stop id ends the answer and is not part of it; any other token is. */
  lemma EmitOrFinishTokens(w: World, g: Generation, tid: TokenId)
    ensures var g' := EmitOrFinish(w, g, tid);
      && g'.request == g.request
      && g'.tokenIds == (if tid in g.request.stopIds then g.tokenIds else g.tokenIds + [tid])
  {
    hide Stream, Finish, Hit, Find;
    var g1 := Received(w, g, tid);
    StreamKeepsTokens(g1);
    FinishFinishes(w, g, EndTurn, true);
    FinishFinishes(w, Stream(g1), MaxTokens, true);
    if Hit(g1.request.stopSequences, g1.text).Some? {
      var cut := EmitText(g1, Find(g1.text, Hit(g1.request.stopSequences, g1.text).value).value);
      FinishFinishes(w, cut, EndTurn, false);
    }
  }

  lemma {:induction false} NaiveIsSampled(w: World, r: Request, n: nat)
    requires r.prompt != []
    ensures Sampled(w, Naive(w, r, n))
  {
    hide EmitOrFinish, Finish, FullLogits, Sample;
    if n > 0 {
      NaiveIsSampled(w, r, n - 1);
      NaiveHasTokens(w, r, n - 1);
      var g := Naive(w, r, n - 1);
      var tid := Sample(w, FullLogits(w.depth, g.tokenIds), g.request.params);
      FinishFinishes(w, g, MaxTokens, true);
      EmitOrFinishTokens(w, g, tid);
      assert (g.tokenIds + [tid])[..|g.tokenIds|] == g.tokenIds;
      if tid !in g.request.stopIds {
        SampledNext(w, g, tid);
      }
    }
  }

  lemma SampledNext(w: World, g: Generation, tid: TokenId)
    requires Sampled(w, g) && tid == Sample(w, FullLogits(w.depth, g.tokenIds), g.request.params) && tid !in g.request.stopIds
    ensures Sampled(w, g.(tokenIds := g.tokenIds + [tid]))
  {
    hide FullLogits, Sample;
    var ids := g.tokenIds + [tid];
    forall k | |g.request.prompt| <= k < |ids|
      ensures ids[k] == Sample(w, FullLogits(w.depth, ids[..k]), g.request.params) && ids[k] !in g.request.stopIds
    {
      assert ids[..k] == g.tokenIds[..k];
      assert g.tokenIds[..|g.tokenIds|] == g.tokenIds;
    }
  }

  lemma NoSectionsWithoutMarker(text: string)
    requires !Occurs(text, OPEN)
    ensures Sections(text) == []
  {
    FindFromIsFirst(text, OPEN, 0);
    LastSection(text, 0, OPEN, CLOSE);
  }

  /** The last token of an answer, and how it ends. */
  lemma LastTokenConcludes(w: World, g: Generation, tid: TokenId)
    requires Good(w, g) && HeldBack(g) && NoCalls(g.events) && Sampled(w, g) && !g.finished
    requires Hit(g.request.stopSequences, g.text).None? && 0 < g.request.params.maxTokens && g.generated < g.request.params.maxTokens
    requires tid == Sample(w, FullLogits(w.depth, g.tokenIds), g.request.params) && EmitOrFinish(w, g, tid).finished
    requires Sampled(w, EmitOrFinish(w, g, tid))
    ensures Concluded(w, EmitOrFinish(w, g, tid)) && !Told(EmitOrFinish(w, g, tid)).Cancelled?
  {
    hide Sampled, CallsLast, Calls, Sections, Parsed, FullLogits, Sample, Find, Hit, Sent, Decoded, Good;
    if tid in g.request.stopIds {
      StopIdConcludes(w, g, tid);
    } else if Hit(g.request.stopSequences, Received(w, g, tid).text).Some? {
      HitConcludes(w, g, tid);
    } else {
      LengthConcludes(w, g, tid);
    }
  }

  /** The reason of the final event. */
  function Told(g: Generation): Reason {
    if g.events != [] && g.events[|g.events| - 1].Final? then g.events[|g.events| - 1].reason else Cancelled
  }

  lemma StopIdConcludes(w: World, g: Generation, tid: TokenId)
    requires Good(w, g) && HeldBack(g) && NoCalls(g.events) && Sampled(w, g) && !g.finished
    requires Hit(g.request.stopSequences, g.text).None? && g.generated < g.request.params.maxTokens
    requires tid == Sample(w, FullLogits(w.depth, g.tokenIds), g.request.params) && tid in g.request.stopIds
    ensures Concluded(w, EmitOrFinish(w, g, tid)) && !Told(EmitOrFinish(w, g, tid)).Cancelled?
  {
    hide CallsLast, Calls, Sections, Parsed, FullLogits, Sample, Find, Hit, Sent, Decoded, Finish, NoCalls;
    FinishTells(w, g, EndTurn, true);
    if !g.toolMode {
      NoSectionsWithoutMarker(g.text);
      NothingParsed(w);
    }
  }

  lemma NothingParsed(w: World)
    ensures Parsed([], w.json) == []
  {
  }

  lemma HitConcludes(w: World, g: Generation, tid: TokenId)
    requires Good(w, g) && HeldBack(g) && NoCalls(g.events) && !g.finished && 0 < g.request.params.maxTokens
    requires tid !in g.request.stopIds && Hit(g.request.stopSequences, Received(w, g, tid).text).Some?
    requires Sampled(w, EmitOrFinish(w, g, tid))
    ensures Concluded(w, EmitOrFinish(w, g, tid)) && !Told(EmitOrFinish(w, g, tid)).Cancelled?
  {
    hide CallsLast, Calls, Sections, Parsed, FullLogits, Sample, Find, Hit, Finish, Sampled, EmitOrFinish, NoCalls, Good, Decoded;
    var g2 := HitState(w, g, tid);
    FinishTells(w, g2, EndTurn, false);
    TextBeforeLast(w, g, EmitOrFinish(w, g, tid), tid);
  }

  lemma HitState(w: World, g: Generation, tid: TokenId) returns (g2: Generation)
    requires Good(w, g) && NoCalls(g.events) && !g.finished && 0 < g.request.params.maxTokens
    requires tid !in g.request.stopIds && Hit(g.request.stopSequences, Received(w, g, tid).text).Some?
    ensures EmitOrFinish(w, g, tid) == Finish(w, g2, EndTurn, false)
    ensures !g2.finished && g2.emitted <= |g2.text| && NoCalls(g2.events) && g2.toolMode == g.toolMode && g2.request == g.request
    ensures g2.text == Received(w, g, tid).text && g2.tokenIds == g.tokenIds + [tid]
  {
    hide Find, Hit, Sent, Decoded, Finish;
    var g1 := Received(w, g, tid);
    var cut := Find(g1.text, Hit(g1.request.stopSequences, g1.text).value).value;
    ReceivedIsPending(w, g, tid);
    g2 := EmitText(g1, cut);
    EmitTextKeeps(g1, cut);
  }

  lemma TextBeforeLast(w: World, g: Generation, g': Generation, tid: TokenId)
    requires Good(w, g) && g'.request == g.request && g'.tokenIds == g.tokenIds + [tid]
    ensures TextBefore(w, g') == g.text
  {
    hide Sent, Decoded;
    assert Answer(g') == Answer(g) + [tid];
    assert Answer(g')[..|Answer(g')| - 1] == Answer(g);
  }

  lemma LengthConcludes(w: World, g: Generation, tid: TokenId)
    requires Good(w, g) && HeldBack(g) && NoCalls(g.events) && !g.finished && 0 < g.request.params.maxTokens
    requires tid !in g.request.stopIds && Hit(g.request.stopSequences, Received(w, g, tid).text).None?
    requires EmitOrFinish(w, g, tid).finished && Sampled(w, EmitOrFinish(w, g, tid))
    ensures Concluded(w, EmitOrFinish(w, g, tid)) && !Told(EmitOrFinish(w, g, tid)).Cancelled?
  {
    hide CallsLast, Calls, Sections, Parsed, FullLogits, Sample, Find, Hit, Sent, Decoded, Finish, Sampled, NoCalls, Stream;
    EmitOrFinishHoldsBack(w, g, tid);
    var g1 := Received(w, g, tid);
    ReceivedIsPending(w, g, tid);
    StreamKeepsPending(w, g1);
    StreamSendsNoCalls(g1);
    FinishTells(w, Stream(g1), MaxTokens, true);
    StreamKeepsText(g1);
    if !Stream(g1).toolMode {
      NoSectionsWithoutMarker(g1.text);
      NothingParsed(w);
    }
  }

  lemma StreamKeepsText(g: Generation)
    ensures Stream(g).text == g.text && Stream(g).request == g.request && Stream(g).finished == g.finished
    ensures Stream(g).generated == g.generated && Stream(g).tokenIds == g.tokenIds
  {
    hide Find, MarkerHoldback;
  }

  /** The answer: each token is the sample of everything before it; its calls are those its text
      owes, after all text; and the reason is tool use if there is a call, else end of turn if a
      stop id or a stop sequence ended it, else the token bound. */
  lemma ReferenceConcludes(w: World, r: Request)
    requires r.prompt != []
    ensures Concluded(w, Reference(w, r)) && Told(Reference(w, r)) != Cancelled
  {
    hide EmitOrFinish, Finish, Concluded, Sampled, FullLogits, Sample, Find, Hit, Good, HeldBack, NoCalls, Told;
    var m := Max(1, r.params.maxTokens);
    ReferenceIsFinished(w, r);
    NaiveIsSampled(w, r, m);
    if r.params.maxTokens <= 0 {
      NothingConcludes(w, r);
    } else {
      var k := LastRunning(w, r, m);
      NaiveIsGood(w, r, k);
      NaiveHoldsBack(w, r, k);
      RunningSendsNoCalls(w, r, k);
      NaiveIsSampled(w, r, k);
      NaiveHasTokens(w, r, k);
      var g := Naive(w, r, k);
      LastTokenConcludes(w, g, Sample(w, FullLogits(w.depth, g.tokenIds), r.params));
    }
  }

  lemma NothingConcludes(w: World, r: Request)
    requires r.prompt != [] && r.params.maxTokens <= 0 && Sampled(w, Reference(w, r))
    ensures Concluded(w, Reference(w, r)) && Told(Reference(w, r)) != Cancelled
  {
    hide Sampled, CallsLast, Calls, Sections, Parsed, FullLogits, Sample, Find, Hit, Finish;
    assert Naive(w, r, 0) == Start(r);
    FinishTells(w, Start(r), MaxTokens, true);
    NothingHitsNothing(r.stopSequences);
    NoSectionsWithoutMarker("") by {
      assert !Occurs("", OPEN);
    }
    NothingParsed(w);
  }

  /** A cancelled answer has no calls. */
  lemma CancelConcludes(w: World, g: Generation)
    requires !g.finished && NoCalls(g.events) && g.emitted <= |g.text| && Sampled(w, g)
    ensures Concluded(w, Finish(w, g, Cancelled, true)) && Told(Finish(w, g, Cancelled, true)) == Cancelled
  {
    hide CallsLast, Calls, Sections, Parsed, FullLogits, Sample, Find, Hit, Finish, OwedCalls, Stopped, NoCalls;
    FinishTells(w, g, Cancelled, true);
  }
}
