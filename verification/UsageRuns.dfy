/** Runs of the usage log: events become visible between any two statements of a rollup, and a
    rollup may be aborted after any of them.  Rollers take turns on the watermark row. */
module UsageRuns {
  import opened Wrappers
  import opened UsageRollups

  /** The transaction under way.  `draft` is its uncommitted view of the daily rows; `late` are
      the events of its range that became visible after it had queried them. */
  datatype Tx =
    | NoTx
    | Locked
    | Bounded(hi: int)
    | Folded(hi: int, batch: seq<Row>, done: nat, draft: seq<Row>, late: seq<Event>)

  /** The tables, and the events that no later rollup will query. */
  datatype Log = Log(events: seq<Event>, daily: seq<Row>, watermark: int, tx: Tx, missed: seq<Event>)

  datatype Step = Append(e: Event) | Begin | ReadMax | Query(rows: seq<Row>) | UpsertNext | Commit | Abort

  /** `GROUP BY` returns its rows in any order. */
  ghost predicate Enabled(s: Log, step: Step) {
    match step
    case Append(e) => e.id > 0
    case Begin => s.tx.NoTx?
    case ReadMax => s.tx.Locked?
    case Query(rows) => s.tx.Bounded? && Grouped(s.events, s.watermark, s.tx.hi, rows)
    case UpsertNext => s.tx.Folded? && s.tx.done < |s.tx.batch|
    case Commit => s.tx.Folded? && s.tx.done == |s.tx.batch|
    case Abort => !s.tx.NoTx?
  }

  function Appended(s: Log, e: Event): Log {
    var s1 := s.(events := s.events + [e]);
    if e.id <= s.watermark then s1.(missed := s.missed + [e])
    else if s.tx.Folded? && e.id <= s.tx.hi then s1.(tx := s.tx.(late := s.tx.late + [e]))
    else s1
  }

  ghost function Next(s: Log, step: Step): Log
    requires Enabled(s, step)
  {
    match step
    case Append(e) => Appended(s, e)
    case Begin => s.(tx := Locked)
    case ReadMax => s.(tx := if MaxId(s.events) <= s.watermark then NoTx else Bounded(MaxId(s.events)))
    case Query(rows) => s.(tx := Folded(s.tx.hi, rows, 0, s.daily, []))
    case UpsertNext => s.(tx := s.tx.(done := s.tx.done + 1, draft := Upsert(s.tx.draft, s.tx.batch[s.tx.done])))
    case Commit => s.(daily := s.tx.draft, watermark := s.tx.hi, tx := NoTx, missed := s.missed + s.tx.late)
    case Abort => s.(tx := NoTx)
  }

  ghost predicate Reaches(s: Log, steps: seq<Step>, s': Log)
    decreases |steps|
  {
    if steps == [] then s' == s else Enabled(s, steps[0]) && Reaches(Next(s, steps[0]), steps[1..], s')
  }

  /** What the migrations leave: the rows of the events so far. */
  ghost predicate Migrated(s: Log) {
    && (forall i :: 0 <= i < |s.events| ==> s.events[i].id > 0)
    && Grouped(s.events, 0, MaxId(s.events), s.daily) && s.watermark == MaxId(s.events) && s.tx.NoTx? && s.missed == []
  }

  // -------------------------------------------------------------------- accounting

  /** The sums of all events of a key. */
  function Total(events: seq<Event>, key: Key): Sums {
    if events == [] then ZERO else
      var last, rest := events[|events| - 1], Total(events[..|events| - 1], key);
      if last.key == key then Plus(rest, Part(last)) else rest
  }

  lemma TotalSnoc(events: seq<Event>, e: Event, key: Key)
    ensures Total(events + [e], key) == if e.key == key then Plus(Total(events, key), Part(e)) else Total(events, key)
  {
    assert (events + [e])[..|events|] == events;
  }

  lemma {:induction false} TotalAppend(a: seq<Event>, b: seq<Event>, key: Key)
    ensures Total(a + b, key) == Plus(Total(a, key), Total(b, key))
  {
    if b == [] {
      assert a + b == a;
    } else {
      var n := |b| - 1;
      TotalAppend(a, b[..n], key);
      assert a + b == (a + b[..n]) + [b[n]];
      TotalSnoc(a + b[..n], b[n], key);
    }
  }

  lemma {:induction false} TotalIsNatural(events: seq<Event>, key: Key)
    ensures Total(events, key).requests >= 0
    ensures events != [] && events[|events| - 1].key == key ==> Total(events, key).requests > 0
  {
    if events != [] {
      TotalIsNatural(events[..|events| - 1], key);
    }
  }

  /** Rows and missed events together are the direct scan up to the watermark; a transaction's
      rows and its late events are the scan of its range. */
  ghost predicate Accounted(s: Log, key: Key) {
    && Plus(Stored(s.daily, key), Total(s.missed, key)) == SumOf(s.events, key, 0, s.watermark)
    && (s.tx.Folded? && s.tx.done <= |s.tx.batch| ==>
          && Plus(Stored(s.tx.batch, key), Total(s.tx.late, key)) == SumOf(s.events, key, s.watermark, s.tx.hi)
          && Stored(s.tx.draft, key) == Plus(Stored(s.daily, key), Stored(s.tx.batch[..s.tx.done], key)))
  }

  ghost predicate Shaped(s: Log) {
    && NoDup(KeysOf(s.daily)) && 0 <= s.watermark
    && (s.tx.Bounded? ==> s.watermark <= s.tx.hi)
    && (s.tx.Folded? ==>
          s.watermark <= s.tx.hi && s.tx.done <= |s.tx.batch| && NoDup(KeysOf(s.tx.batch)) && NoDup(KeysOf(s.tx.draft)))
  }

  ghost predicate Inv(s: Log) {
    Shaped(s) && forall key :: Accounted(s, key)
  }

  lemma AppendAccounts(s: Log, e: Event, key: Key)
    requires Shaped(s) && Accounted(s, key) && e.id > 0
    ensures Accounted(Appended(s, e), key)
  {
    hide SumOf, Stored, Total, KeysOf;
    SumSnoc(s.events, e, key, 0, s.watermark);
    TotalSnoc(s.missed, e, key);
    if s.tx.Folded? {
      SumSnoc(s.events, e, key, s.watermark, s.tx.hi);
      TotalSnoc(s.tx.late, e, key);
    }
  }

  lemma UpsertAccounts(s: Log, key: Key)
    requires Shaped(s) && Accounted(s, key) && Enabled(s, UpsertNext)
    ensures Accounted(Next(s, UpsertNext), key)
  {
    hide SumOf, Total, Upsert, Stored, KeysOf;
    var row := s.tx.batch[s.tx.done];
    assert s.tx.batch[..s.tx.done + 1] == s.tx.batch[..s.tx.done] + [row];
    StoredSnoc(s.tx.batch[..s.tx.done], row, key);
    NotStoredYet(s.tx.batch, s.tx.done);
    UpsertAdds(s.tx.draft, row, key);
  }

  lemma StoredSnoc(rows: seq<Row>, row: Row, key: Key)
    ensures Stored(rows + [row], key) == if row.key == key then row.sums else Stored(rows, key)
  {
    assert (rows + [row])[..|rows|] == rows;
  }

  lemma CommitAccounts(s: Log, key: Key)
    requires Shaped(s) && Accounted(s, key) && Enabled(s, Commit)
    ensures Accounted(Next(s, Commit), key)
  {
    hide SumOf, Total, Stored, KeysOf;
    assert s.tx.batch[..s.tx.done] == s.tx.batch;
    SumSplits(s.events, key, 0, s.watermark, s.tx.hi);
    TotalAppend(s.missed, s.tx.late, key);
  }

  lemma StepAccounts(s: Log, step: Step, key: Key)
    requires Shaped(s) && Accounted(s, key) && Enabled(s, step)
    ensures Accounted(Next(s, step), key)
  {
    hide SumOf, Total, Stored, KeysOf, Upsert, MaxId;
    match step
    case Append(e) => AppendAccounts(s, e, key);
    case Query(rows) => QueryAccounts(s, rows, key);
    case UpsertNext => UpsertAccounts(s, key);
    case Commit => CommitAccounts(s, key);
    case _ =>
  }

  lemma QueryAccounts(s: Log, rows: seq<Row>, key: Key)
    requires Accounted(s, key) && Enabled(s, Query(rows))
    ensures Accounted(Next(s, Query(rows)), key)
  {
    hide SumOf, Total, KeysOf, Stored;
    assert Stored([], key) == ZERO && Total([], key) == ZERO by {
      NothingStored(key);
    }
    assert rows[..0] == [];
  }

  lemma NothingStored(key: Key)
    ensures Stored([], key) == ZERO && Total([], key) == ZERO
  {
  }

  lemma StepKeepsInv(s: Log, step: Step)
    requires Inv(s) && Enabled(s, step)
    ensures Inv(Next(s, step))
  {
    hide SumOf, Total, Stored, KeysOf, Upsert, Accounted;
    forall key ensures Accounted(Next(s, step), key) {
      StepAccounts(s, step, key);
    }
    if step.UpsertNext? {
      UpsertKeys(s.tx.draft, s.tx.batch[s.tx.done]);
    }
  }

  lemma MigratedIsAccounted(s: Log)
    requires Migrated(s)
    ensures Inv(s)
  {
    hide SumOf, KeysOf;
  }

  /** Over every run: each daily row, together with the events missed for good, is the grouped
      sum of the log up to the watermark. */
  lemma {:induction false} RunKeepsInv(s: Log, steps: seq<Step>, s': Log)
    requires Inv(s) && Reaches(s, steps, s')
    ensures Inv(s')
    decreases |steps|
  {
    hide Inv, Enabled, Next;
    if steps != [] {
      StepKeepsInv(s, steps[0]);
      RunKeepsInv(Next(s, steps[0]), steps[1..], s');
    }
  }

  /** So the rows agree with the log exactly when nothing was missed. */
  lemma RunAgreesIff(s: Log, steps: seq<Step>, s': Log)
    requires Migrated(s) && Reaches(s, steps, s')
    ensures Agrees(s'.events, s'.daily, s'.watermark) <==> s'.missed == []
  {
    hide Accounted, Reaches, Migrated, SumOf, KeysOf, Stored, Total;
    MigratedIsAccounted(s);
    RunKeepsInv(s, steps, s');
    if s'.missed == [] {
      NothingMissed(s');
    } else {
      SomethingMissed(s', s'.missed[|s'.missed| - 1].key);
    }
  }

  lemma NothingMissed(s: Log)
    requires Inv(s) && s.missed == []
    ensures Agrees(s.events, s.daily, s.watermark)
  {
    hide SumOf, KeysOf, Stored;
    forall key ensures Stored(s.daily, key) == SumOf(s.events, key, 0, s.watermark) {
      assert Accounted(s, key);
    }
    forall i | 0 <= i < |s.events| && 0 < s.events[i].id <= s.watermark ensures s.events[i].key in KeysOf(s.daily) {
      CountsEach(s.events, i, 0, s.watermark);
      OnlyKeysAreStored(s.daily, s.events[i].key);
    }
  }

  lemma SomethingMissed(s: Log, key: Key)
    requires Inv(s) && s.missed != [] && key == s.missed[|s.missed| - 1].key
    ensures !Agrees(s.events, s.daily, s.watermark)
  {
    hide SumOf, KeysOf, Stored, Total;
    assert Accounted(s, key);
    TotalIsNatural(s.missed, key);
  }

  lemma {:induction false} CountsEach(events: seq<Event>, i: nat, lo: int, hi: int)
    requires i < |events| && lo < events[i].id <= hi
    ensures SumOf(events, events[i].key, lo, hi).requests > 0
  {
    var n := |events| - 1;
    if i < n {
      CountsEach(events[..n], i, lo, hi);
    } else {
      CountIsNatural(events[..n], events[i].key, lo, hi);
    }
  }

  lemma OnlyKeysAreStored(rows: seq<Row>, key: Key)
    requires Stored(rows, key).requests > 0
    ensures key in KeysOf(rows)
  {
    if key !in KeysOf(rows) {
      forall i | 0 <= i < |rows| ensures rows[i].key != key {
        assert KeysOf(rows)[i] == rows[i].key;
      }
      NotStored(rows, key);
    }
  }

  // ------------------------------------------------------------- visible in id order

  /** Every event that becomes visible has a larger id than those before it. */
  ghost predicate InOrder(s: Log, steps: seq<Step>)
    decreases |steps|
  {
    steps != [] && Enabled(s, steps[0]) ==>
      (steps[0].Append? ==> steps[0].e.id > MaxId(s.events)) && InOrder(Next(s, steps[0]), steps[1..])
  }

  ghost predicate Clean(s: Log) {
    && s.missed == [] && s.watermark <= MaxId(s.events)
    && (s.tx.Bounded? || s.tx.Folded? ==> s.tx.hi <= MaxId(s.events)) && (s.tx.Folded? ==> s.tx.late == [])
  }

  lemma {:induction false} NothingIsLate(s: Log, steps: seq<Step>, s': Log)
    requires Clean(s) && Reaches(s, steps, s') && InOrder(s, steps)
    ensures Clean(s')
    decreases |steps|
  {
    hide Upsert, Grouped, MaxId;
    if steps != [] {
      if steps[0].Append? {
        MaxIdSnoc(s.events, steps[0].e);
      }
      NothingIsLate(Next(s, steps[0]), steps[1..], s');
    }
  }

  /** For every interleaving of appends in id order with successful and aborted rollups, the
      rows agree with the log and the summary is the direct scan. */
  lemma InOrderAgrees(s: Log, steps: seq<Step>, s': Log)
    requires Migrated(s) && Reaches(s, steps, s') && InOrder(s, steps)
    ensures Agrees(s'.events, s'.daily, s'.watermark)
    ensures forall tenant, from, until ::
      RowsTotal(s'.daily, tenant, from, until) == ScanTotal(s'.events, s'.watermark, tenant, from, until)
  {
    hide Reaches, InOrder, Agrees, RowsTotal, ScanTotal, Grouped, MaxId;
    NothingIsLate(s, steps, s');
    RunAgreesIff(s, steps, s');
    forall tenant, from, until
      ensures RowsTotal(s'.daily, tenant, from, until) == ScanTotal(s'.events, s'.watermark, tenant, from, until)
    {
      SummaryIsScan(s'.events, s'.daily, s'.watermark, tenant, from, until);
    }
  }

  /** An event whose transaction committed late: event 2 is rolled up, then event 1 becomes
      visible, and the summary lacks it. */
  lemma LateEventIsLost()
    ensures exists steps, s :: Reaches(Log([], [], 0, NoTx, []), steps, s) && Lacks(s)
  {
    hide Reaches, Upsert, Grouped, MaxId, Next;
    var key := Key("t", "m", 0);
    var e1, e2, row := Event(1, key, 3, 4), Event(2, key, 5, 6), Row(key, Sums(5, 6, 1));
    var s0 := Log([], [], 0, NoTx, []);
    var s1 := s0.(events := [e2]);
    var s2 := s1.(tx := Locked);
    var s3 := s1.(tx := Bounded(2));
    var s4 := s1.(tx := Folded(2, [row], 0, [], []));
    var s5 := s1.(tx := Folded(2, [row], 1, [row], []));
    var s6 := s1.(daily := [row], watermark := 2);
    var s7 := s6.(events := [e2, e1], missed := [e1]);
    LateSteps(e1, e2, row);
    assert Reaches(s7, [], s7) by { ReachesNone(s7); }
    ReachesCons(s6, Append(e1), [], s7);
    ReachesCons(s5, Commit, [Append(e1)] + [], s7);
    ReachesCons(s4, UpsertNext, [Commit] + ([Append(e1)] + []), s7);
    ReachesCons(s3, Query([row]), [UpsertNext] + ([Commit] + ([Append(e1)] + [])), s7);
    ReachesCons(s2, ReadMax, [Query([row])] + ([UpsertNext] + ([Commit] + ([Append(e1)] + []))), s7);
    ReachesCons(s1, Begin, [ReadMax] + ([Query([row])] + ([UpsertNext] + ([Commit] + ([Append(e1)] + [])))), s7);
    ReachesCons(s0, Append(e2), [Begin] + ([ReadMax] + ([Query([row])] + ([UpsertNext] + ([Commit] + ([Append(e1)] + []))))), s7);
    LateLacks(s7);
  }

  ghost predicate Lacks(s: Log) {
    && RowsTotal(s.daily, "t", 0, 0) == Sums(5, 6, 1)
    && ScanTotal(s.events, s.watermark, "t", 0, 0) == Sums(8, 10, 2)
  }

  lemma LateLacks(s: Log)
    requires s.daily == [Row(Key("t", "m", 0), Sums(5, 6, 1))] && s.watermark == 2
    requires s.events == [Event(2, Key("t", "m", 0), 5, 6), Event(1, Key("t", "m", 0), 3, 4)]
    ensures Lacks(s)
  {
    var e2, e1 := s.events[0], s.events[1];
    assert s.events[..1] == [e2] && [e2][..0] == [];
    assert ScanTotal([e2], 2, "t", 0, 0) == Sums(5, 6, 1);
  }

  lemma ReachesNone(s: Log)
    ensures Reaches(s, [], s)
  {
  }

  lemma ReachesCons(s: Log, step: Step, rest: seq<Step>, s': Log)
    requires Enabled(s, step) && Reaches(Next(s, step), rest, s')
    ensures Reaches(s, [step] + rest, s')
  {
    hide Enabled, Next;
    assert ([step] + rest)[1..] == rest;
  }

  lemma LateSteps(e1: Event, e2: Event, row: Row)
    requires e1 == Event(1, row.key, 3, 4) && e2 == Event(2, row.key, 5, 6) && row.sums == Sums(5, 6, 1)
    ensures var s0 := Log([], [], 0, NoTx, []);
      var s1 := s0.(events := [e2]);
      var s2 := s1.(tx := Locked);
      var s3 := s1.(tx := Bounded(2));
      var s4 := s1.(tx := Folded(2, [row], 0, [], []));
      var s5 := s1.(tx := Folded(2, [row], 1, [row], []));
      var s6 := s1.(daily := [row], watermark := 2);
      && Enabled(s0, Append(e2)) && Next(s0, Append(e2)) == s1
      && Enabled(s1, Begin) && Next(s1, Begin) == s2
      && Enabled(s2, ReadMax) && Next(s2, ReadMax) == s3
      && Enabled(s3, Query([row])) && Next(s3, Query([row])) == s4
      && Enabled(s4, UpsertNext) && Next(s4, UpsertNext) == s5
      && Enabled(s5, Commit) && Next(s5, Commit) == s6
      && Enabled(s6, Append(e1)) && Next(s6, Append(e1)) == s6.(events := [e2, e1], missed := [e1])
  {
    hide Grouped;
    OneEventGroups(e2, row);
    assert MaxId([e2]) == 2;
    assert [e2] + [e1] == [e2, e1];
  }

  lemma OneEventGroups(e: Event, row: Row)
    requires e.id == 2 && row == Row(e.key, Part(e))
    ensures Grouped([e], 0, 2, [row])
  {
    GroupNone(0, 2);
    GroupOne([], 0, 2, [], e);
    assert [] + [e] == [e];
  }
}
