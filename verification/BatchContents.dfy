/** What the events on a channel say, over every run of the batch scheduler: the worker's words
    field by field, and a final of the scheduler's own that names how the batch ended. */
module BatchContents {
  import opened Wrappers
  import opened BatchSchedulers
  import opened BatchRouting
  import opened BatchLaws

  // ------------------------------------------------------------ the worker's events

  /** The event carries what the response says, field by field. */
  predicate Carries(e: Event, r: Response) {
    && e.kind == r.kind
    && (r.kind.TokenKind? || r.kind.FinalKind? ==> e.token == r.token)
    && (r.kind.ReasoningKind? ==> e.token == r.reasoning)
    && (r.kind.ToolUseKind? || r.kind.Unspecified? ==> e.token == "")
    && e.tool == (if r.kind.ToolUseKind? then r.tool else None)
    && (e.stopReason, e.finishReason) == (if r.kind.FinalKind? then (r.stopReason, r.finishReason) else ("", ""))
    && e.usage == (if r.kind.FinalKind? then r.usage else None)
    && e.error == (if r.kind.FinalKind? && r.stopReason == "STOP_ERROR" then r.token else "")
  }

  /** Event `i` carries response `from[i]`, a response for `id`, and the order is the worker's. */
  ghost predicate Stems(es: seq<Event>, rs: seq<Response>, id: string, from: seq<nat>) {
    && |from| == |es|
    && (forall i, j :: 0 <= i < j < |from| ==> from[i] < from[j])
    && forall i :: 0 <= i < |es| ==> from[i] < |rs| && rs[from[i]].requestId == id && Carries(es[i], rs[from[i]])
  }

  /** Response `k` is for `id`, and no final for `id` came before it. */
  ghost predicate Owed(rs: seq<Response>, id: string, k: nat) {
    && k < |rs| && rs[k].requestId == id
    && forall l :: 0 <= l < k ==> rs[l].requestId != id || !rs[l].kind.FinalKind?
  }

  lemma MoreReceived(es: seq<Event>, rs: seq<Response>, more: seq<Response>, id: string, from: seq<nat>)
    requires Stems(es, rs, id, from)
    ensures Stems(es, rs + more, id, from)
    ensures forall k: nat :: k < |rs| ==> (Owed(rs + more, id, k) <==> Owed(rs, id, k))
  {
    hide Carries;
    forall k: nat | k < |rs| ensures Owed(rs + more, id, k) <==> Owed(rs, id, k) {
      assert forall l :: 0 <= l <= k ==> (rs + more)[l] == rs[l];
    }
  }

  lemma SnocStems(es: seq<Event>, rs: seq<Response>, id: string, from: seq<nat>, e: Event, k: nat)
    requires Stems(es, rs, id, from) && k < |rs| && rs[k].requestId == id && Carries(e, rs[k])
    requires forall i :: 0 <= i < |from| ==> from[i] < k
    ensures Stems(es + [e], rs, id, from + [k])
  {
    hide Carries;
  }

  lemma ToEventCarries(r: Response)
    ensures Carries(ToEvent(r), r)
  {
  }

  lemma {:induction false} ForIdStems(rs: seq<Response>, id: string) returns (from: seq<nat>)
    ensures Stems(ForId(rs, id), rs, id, from)
    ensures forall k: nat :: k < |rs| && rs[k].requestId == id ==> k in from
  {
    hide Carries, ToEvent, Owed;
    from := [];
    if rs != [] {
      var n := |rs| - 1;
      from := ForIdStems(rs[..n], id);
      assert rs[..n] + [rs[n]] == rs;
      MoreReceived(ForId(rs[..n], id), rs[..n], [rs[n]], id, from);
      assert forall k: nat :: k < n && rs[k].requestId == id ==> rs[..n][k] == rs[k] && k in from;
      if rs[n].requestId == id {
        ToEventCarries(rs[n]);
        SnocStems(ForId(rs[..n], id), rs, id, from, ToEvent(rs[n]), n);
        from := from + [n];
      }
    }
  }

  lemma {:induction false} UpToFinalIsPrefix(es: seq<Event>) returns (n: nat)
    ensures n <= |es| && UpToFinal(es) == es[..n]
    ensures n < |es| ==> 0 < n && es[n - 1].kind.FinalKind?
    ensures forall i :: 0 <= i < n - 1 ==> !es[i].kind.FinalKind?
  {
    if es == [] {
      n := 0;
    } else if es[0].kind.FinalKind? {
      n := 1;
    } else {
      var m := UpToFinalIsPrefix(es[1..]);
      n := m + 1;
      assert es[..n] == [es[0]] + es[1..][..m];
      forall i | 0 <= i < n - 1 ensures !es[i].kind.FinalKind? {
        if i > 0 {
          assert es[1..][i - 1] == es[i];
        }
      }
    }
  }

  lemma IsOwed(es: seq<Event>, rs: seq<Response>, id: string, all: seq<nat>, n: nat, i: nat)
    requires Stems(es, rs, id, all) && forall k: nat :: k < |rs| && rs[k].requestId == id ==> k in all
    requires i < n <= |es| && forall i :: 0 <= i < n - 1 ==> !es[i].kind.FinalKind?
    ensures Owed(rs, id, all[i])
  {
    forall l: nat | l < all[i] && rs[l].requestId == id ensures !rs[l].kind.FinalKind? {
      var j :| 0 <= j < |all| && all[j] == l;
      assert Carries(es[j], rs[l]);
      assert j < i;
    }
  }

  lemma IsKept(es: seq<Event>, rs: seq<Response>, id: string, all: seq<nat>, n: nat, i: nat)
    requires Stems(es, rs, id, all) && n <= |es| && i < |es| && Owed(rs, id, all[i])
    requires n < |es| ==> 0 < n && es[n - 1].kind.FinalKind?
    ensures i < n
  {
    if n < |es| {
      assert Carries(es[n - 1], rs[all[n - 1]]);
    }
  }

  /** What is owed stems from exactly the responses for the id up to its first final. */
  lemma OwedStems(rs: seq<Response>, id: string) returns (from: seq<nat>)
    ensures Stems(UpToFinal(ForId(rs, id)), rs, id, from)
    ensures forall k: nat :: k in from <==> Owed(rs, id, k)
  {
    hide ForId, UpToFinal, Carries, Owed;
    var es := ForId(rs, id);
    var all := ForIdStems(rs, id);
    var n := UpToFinalIsPrefix(es);
    from := all[..n];
    forall k: nat | k in from ensures Owed(rs, id, k) {
      var i: nat :| i < n && from[i] == k;
      IsOwed(es, rs, id, all, n, i);
    }
    forall k: nat | Owed(rs, id, k) ensures k in from {
      assert k < |rs| && rs[k].requestId == id by {
        OwedIsFor(rs, id, k);
      }
      var i: nat :| i < |all| && all[i] == k;
      IsKept(es, rs, id, all, n, i);
      assert from[i] == k;
    }
  }

  lemma OwedIsFor(rs: seq<Response>, id: string, k: nat)
    requires Owed(rs, id, k)
    ensures k < |rs| && rs[k].requestId == id
  {
  }

  lemma {:induction false} SubsequenceStems(a: seq<Event>, b: seq<Event>, rs: seq<Response>, id: string, from: seq<nat>)
    returns (rest: seq<nat>)
    requires Subsequence(a, b) && Stems(b, rs, id, from)
    ensures Stems(a, rs, id, rest) && forall k :: k in rest ==> k in from
    decreases |b|
  {
    hide Carries;
    if a == [] {
      rest := [];
    } else if Subsequence(a, b[..|b| - 1]) {
      rest := SubsequenceStems(a, b[..|b| - 1], rs, id, from[..|b| - 1]);
    } else {
      rest := SubsequenceStems(a[..|a| - 1], b[..|b| - 1], rs, id, from[..|b| - 1]);
      forall i | 0 <= i < |rest| ensures rest[i] < from[|b| - 1] {
        assert rest[i] in from[..|b| - 1];
      }
      SnocStems(a[..|a| - 1], rs, id, rest, a[|a| - 1], from[|b| - 1]);
      assert a[..|a| - 1] + [a[|a| - 1]] == a;
      rest := rest + [from[|b| - 1]];
    }
  }

  /** In every reachable state each event routed to an item of a batch carries a response the
      worker sent to that batch for the item's request id, field by field and in the worker's
      order, none of them behind a final; and all of those, for the item the id names, if the
      worker accepted the batch and neither a cancellation nor a shutdown let one be skipped. */
  lemma RoutedCarries(maxInFlight: int, maxBatchSize: int, steps: seq<Step>, s: State, d: nat, j: nat) returns (from: seq<nat>)
    requires Run(Init(maxInFlight, maxBatchSize), steps) == Some(s)
    requires d < |s.dispatchers| && j < |s.dispatchers[d].batch|
    ensures s.dispatchers[d].batch[j] < |s.items| && |s.dispatchers[d].ids| == |s.dispatchers[d].batch|
    ensures Received(steps, d) == s.dispatchers[d].handled + Pending(s.dispatchers[d])
    ensures
      var it := s.items[s.dispatchers[d].batch[j]];
      && Stems(it.routed, Received(steps, d), it.requestId, from)
      && (forall k: nat :: k in from ==> k < |s.dispatchers[d].handled| && Owed(Received(steps, d), it.requestId, k))
      && (Last(s.dispatchers[d].ids, j) && !it.cancelled && !s.stopped
          && !s.dispatchers[d].phase.Calling? && !s.dispatchers[d].phase.Failing? && s.dispatchers[d].phase != Done(true) ==>
          forall k: nat :: k < |s.dispatchers[d].handled| && Owed(Received(steps, d), it.requestId, k) ==> k in from)
  {
    hide Run, ForId, UpToFinal, HasFinal, Subsequence, Received;
    AtPosition(maxInFlight, maxBatchSize, steps, s, d, j);
    HandledIsReceived(maxInFlight, maxBatchSize, steps);
    var disp := s.dispatchers[d];
    var it := s.items[disp.batch[j]];
    if it.routed == [] && !(Last(disp.ids, j) && Routed(disp, disp.ids[j], it, s.stopped)) {
      from := [];
    } else {
      assert Routed(disp, disp.ids[j], it, s.stopped);
      var owed := OwedStems(disp.handled, disp.ids[j]);
      from := owed;
      if it.routed != UpToFinal(ForId(disp.handled, disp.ids[j])) {
        from := SubsequenceStems(it.routed, UpToFinal(ForId(disp.handled, disp.ids[j])), disp.handled, disp.ids[j], owed);
      }
      MoreReceived(it.routed, disp.handled, Pending(disp), disp.ids[j], from);
    }
  }
}
