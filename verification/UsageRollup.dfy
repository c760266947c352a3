/** The usage rollup: daily sums derived from the event log up to a watermark. */
module UsageRollups {
  import opened Wrappers

  /** The primary key of usage_daily. */
  datatype Key = Key(tenant: string, model: string, day: int)

  datatype Sums = Sums(prompt: int, completion: int, requests: int)

  datatype Event = Event(id: int, key: Key, prompt: int, completion: int)

  datatype Row = Row(key: Key, sums: Sums)

  const ZERO := Sums(0, 0, 0)

  function Plus(a: Sums, b: Sums): Sums {
    Sums(a.prompt + b.prompt, a.completion + b.completion, a.requests + b.requests)
  }

  function Part(e: Event): Sums {
    Sums(e.prompt, e.completion, 1)
  }

  // ---------------------------------------------------------------- the direct scan

  /** The grouped sum of one key over the events with `lo < id <= hi`. */
  function SumOf(events: seq<Event>, key: Key, lo: int, hi: int): Sums {
    if events == [] then ZERO else
      var last := events[|events| - 1];
      var rest := SumOf(events[..|events| - 1], key, lo, hi);
      if last.key == key && lo < last.id <= hi then Plus(rest, Part(last)) else rest
  }

  function MaxId(events: seq<Event>): (m: int)
    ensures m >= 0 && forall i :: 0 <= i < |events| ==> events[i].id <= m
  {
    if events == [] then 0 else Max(MaxId(events[..|events| - 1]), events[|events| - 1].id)
  }

  /** The watermark a rollup moves to is the id of an event it has seen. */
  lemma {:induction false} MaxIdIsReached(events: seq<Event>)
    ensures MaxId(events) > 0 ==> exists i :: 0 <= i < |events| && events[i].id == MaxId(events)
  {
    if events != [] && MaxId(events) > 0 {
      var n := |events| - 1;
      MaxIdIsReached(events[..n]);
      if MaxId(events) != events[n].id {
        var i :| 0 <= i < n && events[..n][i].id == MaxId(events[..n]);
        assert events[i].id == MaxId(events);
      }
    }
  }

  lemma {:induction false} SumSplits(events: seq<Event>, key: Key, lo: int, mid: int, hi: int)
    requires lo <= mid <= hi
    ensures SumOf(events, key, lo, hi) == Plus(SumOf(events, key, lo, mid), SumOf(events, key, mid, hi))
  {
    if events != [] {
      SumSplits(events[..|events| - 1], key, lo, mid, hi);
    }
  }

  lemma {:induction false} CountIsNatural(events: seq<Event>, key: Key, lo: int, hi: int)
    ensures SumOf(events, key, lo, hi).requests >= 0
  {
    if events != [] {
      CountIsNatural(events[..|events| - 1], key, lo, hi);
    }
  }

  lemma SumSnoc(events: seq<Event>, e: Event, key: Key, lo: int, hi: int)
    ensures SumOf(events + [e], key, lo, hi) ==
      if e.key == key && lo < e.id <= hi then Plus(SumOf(events, key, lo, hi), Part(e)) else SumOf(events, key, lo, hi)
  {
    assert (events + [e])[..|events|] == events;
  }

  // ------------------------------------------------------------------- daily rows

  function KeysOf(rows: seq<Row>): (ks: seq<Key>)
    ensures |ks| == |rows| && forall i :: 0 <= i < |rows| ==> ks[i] == rows[i].key
  {
    seq(|rows|, i requires 0 <= i < |rows| => rows[i].key)
  }

  /** The sums stored for a key; no row means zero. */
  function Stored(rows: seq<Row>, key: Key): Sums {
    if rows == [] then ZERO
    else if rows[|rows| - 1].key == key then rows[|rows| - 1].sums
    else Stored(rows[..|rows| - 1], key)
  }

  /** `INSERT ... ON CONFLICT DO UPDATE` adding to the row of the key. */
  function Upsert(rows: seq<Row>, row: Row): (r: seq<Row>)
  {
    if rows == [] then [row] else
      var last, rest := rows[|rows| - 1], rows[..|rows| - 1];
      if last.key == row.key then rest + [Row(row.key, Plus(last.sums, row.sums))] else Upsert(rest, row) + [last]
  }

  lemma {:induction false} UpsertKeys(rows: seq<Row>, row: Row)
    requires NoDup(KeysOf(rows))
    ensures NoDup(KeysOf(Upsert(rows, row)))
    ensures forall k :: k in KeysOf(Upsert(rows, row)) <==> k in KeysOf(rows) || k == row.key
  {
    if rows != [] {
      var last, rest := rows[|rows| - 1], rows[..|rows| - 1];
      assert KeysOf(rows) == KeysOf(rest) + [last.key];
      assert forall i, j :: 0 <= i < j < |rest| ==> KeysOf(rows)[i] != KeysOf(rows)[j];
      assert last.key !in KeysOf(rest);
      KeysSnoc(rest, Row(row.key, Plus(last.sums, row.sums)));
      if last.key != row.key {
        UpsertKeys(rest, row);
        KeysSnoc(Upsert(rest, row), last);
      }
    } else {
      assert KeysOf([row]) == [row.key];
    }
  }

  lemma KeysSnoc(rows: seq<Row>, row: Row)
    ensures KeysOf(rows + [row]) == KeysOf(rows) + [row.key]
    ensures NoDup(KeysOf(rows)) && row.key !in KeysOf(rows) ==> NoDup(KeysOf(rows + [row]))
  {
    assert (rows + [row])[..|rows|] == rows;
  }

  lemma {:induction false} UpsertAdds(rows: seq<Row>, row: Row, key: Key)
    requires NoDup(KeysOf(rows))
    ensures Stored(Upsert(rows, row), key) == if key == row.key then Plus(Stored(rows, key), row.sums) else Stored(rows, key)
  {
    if rows != [] {
      var last, rest := rows[|rows| - 1], rows[..|rows| - 1];
      assert KeysOf(rows) == KeysOf(rest) + [last.key];
      if last.key == row.key {
        assert (rest + [Row(row.key, Plus(last.sums, row.sums))])[..|rest|] == rest;
      } else {
        NoDupInit(KeysOf(rest), last.key);
        UpsertAdds(rest, row, key);
        assert (Upsert(rest, row) + [last])[..|Upsert(rest, row)|] == Upsert(rest, row);
      }
    }
  }

  lemma NoDupInit(ks: seq<Key>, k: Key)
    requires NoDup(ks + [k])
    ensures NoDup(ks) && k !in ks
  {
    assert forall i :: 0 <= i < |ks| ==> (ks + [k])[i] == ks[i];
    assert (ks + [k])[|ks|] == k;
  }

  // -------------------------------------------------------------------- agreement

  /** Every key's row is the grouped sum of the events up to the watermark, and every such
      event has a row. */
  ghost predicate Agrees(events: seq<Event>, rows: seq<Row>, watermark: int) {
    && NoDup(KeysOf(rows)) && (forall key :: Stored(rows, key) == SumOf(events, key, 0, watermark))
    && forall i :: 0 <= i < |events| && 0 < events[i].id <= watermark ==> events[i].key in KeysOf(rows)
  }

  /** An event that becomes visible late is never rolled up: agreement survives an append
      exactly when its id is beyond the watermark. */
  lemma AppendKeepsAgreementIff(events: seq<Event>, rows: seq<Row>, watermark: int, e: Event)
    requires Agrees(events, rows, watermark) && e.id > 0
    ensures Agrees(events + [e], rows, watermark) <==> e.id > watermark
  {
    hide SumOf, KeysOf, Stored;
    forall key ensures SumOf(events + [e], key, 0, watermark) ==
      if e.key == key && e.id <= watermark then Plus(SumOf(events, key, 0, watermark), Part(e)) else SumOf(events, key, 0, watermark)
    {
      SumSnoc(events, e, key, 0, watermark);
    }
    assert Stored(rows, e.key) == SumOf(events, e.key, 0, watermark);
  }

  // ----------------------------------------------------------------------- summary

  /** Rows and events of a tenant between two days. */
  predicate Selected(key: Key, tenant: string, from: int, until: int) {
    key.tenant == tenant && from <= key.day <= until
  }

  function RowsTotal(rows: seq<Row>, tenant: string, from: int, until: int): Sums {
    if rows == [] then ZERO else
      var last, rest := rows[|rows| - 1], RowsTotal(rows[..|rows| - 1], tenant, from, until);
      if Selected(last.key, tenant, from, until) then Plus(rest, last.sums) else rest
  }

  /** The direct scan of the events up to the watermark. */
  function ScanTotal(events: seq<Event>, watermark: int, tenant: string, from: int, until: int): Sums {
    if events == [] then ZERO else
      var last, rest := events[|events| - 1], ScanTotal(events[..|events| - 1], watermark, tenant, from, until);
      if Selected(last.key, tenant, from, until) && 0 < last.id <= watermark then Plus(rest, Part(last)) else rest
  }

  /** Nothing counts for nothing, and one more event counts its prompt tokens, its completion
      tokens and one request, exactly if it is the tenant's, its day is one of the days asked for,
      the first and the last included, and its id has been rolled up. */
  lemma ScanCounts(events: seq<Event>, e: Event, watermark: int, tenant: string, from: int, until: int)
    ensures ScanTotal([], watermark, tenant, from, until) == Sums(0, 0, 0)
    ensures
      var before, after := ScanTotal(events, watermark, tenant, from, until), ScanTotal(events + [e], watermark, tenant, from, until);
      if e.key.tenant == tenant && from <= e.key.day && e.key.day <= until && 0 < e.id && e.id <= watermark
      then
        && after.prompt == before.prompt + e.prompt && after.completion == before.completion + e.completion
        && after.requests == before.requests + 1
      else after == before
  {
    assert (events + [e])[..|events|] == events;
  }

  /** Group sums of some keys, added up. */
  function KeysTotal(ks: seq<Key>, events: seq<Event>, watermark: int, tenant: string, from: int, until: int): Sums {
    if ks == [] then ZERO else
      var last, rest := ks[|ks| - 1], KeysTotal(ks[..|ks| - 1], events, watermark, tenant, from, until);
      if Selected(last, tenant, from, until) then Plus(rest, SumOf(events, last, 0, watermark)) else rest
  }

  lemma {:induction false} StoredOfOwnKey(rows: seq<Row>, i: nat)
    requires NoDup(KeysOf(rows)) && i < |rows|
    ensures Stored(rows, rows[i].key) == rows[i].sums
  {
    var n := |rows| - 1;
    assert KeysOf(rows) == KeysOf(rows[..n]) + [rows[n].key];
    NoDupInit(KeysOf(rows[..n]), rows[n].key);
    if i < n {
      assert KeysOf(rows)[i] != KeysOf(rows)[n];
      StoredOfOwnKey(rows[..n], i);
    }
  }

  lemma {:induction false} RowsTotalIsKeysTotal(rows: seq<Row>, events: seq<Event>, watermark: int, tenant: string, from: int, until: int)
    requires forall i :: 0 <= i < |rows| ==> rows[i].sums == SumOf(events, rows[i].key, 0, watermark)
    ensures RowsTotal(rows, tenant, from, until) == KeysTotal(KeysOf(rows), events, watermark, tenant, from, until)
  {
    hide SumOf;
    if rows != [] {
      var n := |rows| - 1;
      RowsTotalIsKeysTotal(rows[..n], events, watermark, tenant, from, until);
      assert KeysOf(rows)[..n] == KeysOf(rows[..n]);
    }
  }

  /** One more event adds to the total of the keys once, if its key is among them. */
  lemma {:induction false} OneEventOnce(ks: seq<Key>, events: seq<Event>, e: Event, watermark: int, tenant: string, from: int, until: int)
    requires NoDup(ks)
    ensures KeysTotal(ks, events + [e], watermark, tenant, from, until) ==
      if e.key in ks && Selected(e.key, tenant, from, until) && 0 < e.id <= watermark
      then Plus(KeysTotal(ks, events, watermark, tenant, from, until), Part(e))
      else KeysTotal(ks, events, watermark, tenant, from, until)
  {
    hide SumOf;
    if ks != [] {
      var n := |ks| - 1;
      assert ks == ks[..n] + [ks[n]];
      NoDupInit(ks[..n], ks[n]);
      OneEventOnce(ks[..n], events, e, watermark, tenant, from, until);
      SumSnoc(events, e, ks[n], 0, watermark);
    }
  }

  lemma {:induction false} NoEvents(ks: seq<Key>, watermark: int, tenant: string, from: int, until: int)
    ensures KeysTotal(ks, [], watermark, tenant, from, until) == ZERO
  {
    if ks != [] {
      NoEvents(ks[..|ks| - 1], watermark, tenant, from, until);
    }
  }

  lemma {:induction false} KeysTotalIsScan(ks: seq<Key>, events: seq<Event>, watermark: int, tenant: string, from: int, until: int)
    requires NoDup(ks) && forall i :: 0 <= i < |events| && 0 < events[i].id <= watermark ==> events[i].key in ks
    ensures KeysTotal(ks, events, watermark, tenant, from, until) == ScanTotal(events, watermark, tenant, from, until)
    decreases |events|
  {
    hide KeysTotal;
    if events == [] {
      NoEvents(ks, watermark, tenant, from, until);
    } else {
      var n := |events| - 1;
      KeysTotalIsScan(ks, events[..n], watermark, tenant, from, until);
      OneEventOnce(ks, events[..n], events[n], watermark, tenant, from, until);
      assert events == events[..n] + [events[n]];
    }
  }

  /** The summary of the daily rows is the direct scan of the events up to the watermark. */
  lemma SummaryIsScan(events: seq<Event>, rows: seq<Row>, watermark: int, tenant: string, from: int, until: int)
    requires Agrees(events, rows, watermark)
    ensures RowsTotal(rows, tenant, from, until) == ScanTotal(events, watermark, tenant, from, until)
  {
    hide SumOf, Stored, RowsTotal, ScanTotal, KeysTotal;
    forall i | 0 <= i < |rows| ensures rows[i].sums == SumOf(events, rows[i].key, 0, watermark) {
      StoredOfOwnKey(rows, i);
    }
    RowsTotalIsKeysTotal(rows, events, watermark, tenant, from, until);
    KeysTotalIsScan(KeysOf(rows), events, watermark, tenant, from, until);
  }

  // --------------------------------------------------------------------- the store

  /** `GROUP BY` over the events with `lo < id <= hi`: one row per key that occurs. */
  ghost predicate Grouped(events: seq<Event>, lo: int, hi: int, rows: seq<Row>) {
    && NoDup(KeysOf(rows)) && (forall key :: Stored(rows, key) == SumOf(events, key, lo, hi))
    && (forall key :: key in KeysOf(rows) ==> SumOf(events, key, lo, hi).requests > 0)
    && forall i :: 0 <= i < |events| && lo < events[i].id <= hi ==> events[i].key in KeysOf(rows)
  }

  lemma GroupOne(events: seq<Event>, lo: int, hi: int, rows: seq<Row>, e: Event)
    requires Grouped(events, lo, hi, rows)
    ensures Grouped(events + [e], lo, hi, if lo < e.id <= hi then Upsert(rows, Row(e.key, Part(e))) else rows)
  {
    hide SumOf, Stored, Upsert, KeysOf;
    UpsertKeys(rows, Row(e.key, Part(e)));
    var rows' := if lo < e.id <= hi then Upsert(rows, Row(e.key, Part(e))) else rows;
    forall key ensures Stored(rows', key) == SumOf(events + [e], key, lo, hi) {
      UpsertAdds(rows, Row(e.key, Part(e)), key);
      SumSnoc(events, e, key, lo, hi);
    }
    forall key | key in KeysOf(rows') ensures SumOf(events + [e], key, lo, hi).requests > 0 {
      SumSnoc(events, e, key, lo, hi);
      CountIsNatural(events, key, lo, hi);
    }
  }

  /** Part of the batch has been folded into the daily rows. */
  ghost predicate Folding(events: seq<Event>, daily: seq<Row>, lo: int, hi: int, batch: seq<Row>, done: nat) {
    && done <= |batch| && NoDup(KeysOf(daily)) && NoDup(KeysOf(batch))
    && (forall key :: Stored(daily, key) == Plus(SumOf(events, key, 0, lo), Stored(batch[..done], key)))
    && (forall i :: 0 <= i < |events| && 0 < events[i].id <= lo ==> events[i].key in KeysOf(daily))
    && forall i :: 0 <= i < done ==> batch[i].key in KeysOf(daily)
  }

  lemma FoldOne(events: seq<Event>, daily: seq<Row>, lo: int, hi: int, batch: seq<Row>, done: nat)
    requires Folding(events, daily, lo, hi, batch, done) && done < |batch|
    ensures Folding(events, Upsert(daily, batch[done]), lo, hi, batch, done + 1)
  {
    hide SumOf, Upsert;
    UpsertKeys(daily, batch[done]);
    var more := batch[..done + 1];
    assert more[..done] == batch[..done] && more[done] == batch[done];
    NotStoredYet(batch, done);
    forall key ensures Stored(Upsert(daily, batch[done]), key) == Plus(SumOf(events, key, 0, lo), Stored(more, key)) {
      UpsertAdds(daily, batch[done], key);
    }
  }

  lemma NotStoredYet(batch: seq<Row>, done: nat)
    requires NoDup(KeysOf(batch)) && done < |batch|
    ensures Stored(batch[..done], batch[done].key) == ZERO
  {
    forall i | 0 <= i < done ensures batch[..done][i].key != batch[done].key {
      assert KeysOf(batch)[i] != KeysOf(batch)[done];
    }
    NotStored(batch[..done], batch[done].key);
  }

  lemma {:induction false} NotStored(rows: seq<Row>, key: Key)
    requires forall i :: 0 <= i < |rows| ==> rows[i].key != key
    ensures Stored(rows, key) == ZERO
  {
    if rows != [] {
      NotStored(rows[..|rows| - 1], key);
    }
  }

  lemma FoldStart(events: seq<Event>, daily: seq<Row>, lo: int, hi: int, batch: seq<Row>)
    requires Agrees(events, daily, lo) && Grouped(events, lo, hi, batch)
    ensures Folding(events, daily, lo, hi, batch, 0)
  {
    hide SumOf;
  }

  lemma FoldDone(events: seq<Event>, daily: seq<Row>, lo: int, hi: int, batch: seq<Row>)
    requires 0 <= lo <= hi && Grouped(events, lo, hi, batch) && Folding(events, daily, lo, hi, batch, |batch|)
    ensures Agrees(events, daily, hi)
  {
    hide SumOf, Stored;
    assert batch[..|batch|] == batch;
    forall key ensures Stored(daily, key) == SumOf(events, key, 0, hi) {
      SumSplits(events, key, 0, lo, hi);
    }
    forall i | 0 <= i < |events| && 0 < events[i].id <= hi ensures events[i].key in KeysOf(daily) {
      if events[i].id > lo {
        var j :| 0 <= j < |batch| && KeysOf(batch)[j] == events[i].key;
      }
    }
  }

  class UsageStore {
    var events: seq<Event>
    var daily: seq<Row>
    var watermark: int

    ghost predicate Valid()
      reads this
    {
      && 0 <= watermark <= MaxId(events) && Agrees(events, daily, watermark)
      && forall i :: 0 <= i < |events| ==> events[i].id > 0
    }

    /** The migration backfills what is there and starts the watermark at the last event. */
    constructor Migrate(existing: seq<Event>, backfilled: seq<Row>)
      requires forall i :: 0 <= i < |existing| ==> existing[i].id > 0
      requires Grouped(existing, 0, MaxId(existing), backfilled)
      ensures Valid() && events == existing && watermark == MaxId(existing)
    {
      events, daily, watermark := existing, backfilled, MaxId(existing);
    }

    /** A recorded event becomes visible, and the store stays right unless it is late. */
    method Record(e: Event)
      requires Valid() && e.id > 0
      modifies this`events
      ensures events == old(events) + [e] && (Valid() <==> e.id > watermark)
    {
      hide Agrees, MaxId;
      AppendKeepsAgreementIff(events, daily, watermark, e);
      MaxIdSnoc(events, e);
      events := events + [e];
    }

    /** The `GROUP BY` query. */
    method Group(lo: int, hi: int) returns (rows: seq<Row>)
      ensures Grouped(events, lo, hi, rows)
    {
      hide Grouped, Upsert;
      rows := [];
      ghost var seen: seq<Event> := [];
      GroupNone(lo, hi);
      for i := 0 to |events|
        invariant seen == events[..i] && Grouped(seen, lo, hi, rows)
      {
        GroupOne(seen, lo, hi, rows, events[i]);
        seen := seen + [events[i]];
        if lo < events[i].id <= hi {
          rows := Upsert(rows, Row(events[i].key, Part(events[i])));
        }
      }
      assert seen == events;
    }

    /** `Rollup`; with `failAt` it aborts before that row and leaves nothing behind. */
    method Rollup(failAt: Option<nat>) returns (ok: bool, rolled: nat)
      requires Valid()
      modifies this`daily, this`watermark
      ensures Valid() && (ok ==> watermark == MaxId(events))
      ensures ok && old(watermark) < watermark ==> exists rows :: Grouped(events, old(watermark), watermark, rows) && rolled == |rows|
      ensures ok && old(watermark) == watermark ==> daily == old(daily) && rolled == 0
      ensures !ok ==> watermark == old(watermark) && daily == old(daily) && rolled == 0
    {
      hide Agrees, Grouped, Folding, Upsert;
      var lastId, maxId := watermark, MaxId(events);
      if maxId <= lastId {
        return true, 0;
      }
      var rows := Group(lastId, maxId);
      var saved := daily;
      FoldStart(events, daily, lastId, maxId, rows);
      for i := 0 to |rows|
        invariant Folding(events, daily, lastId, maxId, rows, i) && watermark == lastId
      {
        if failAt == Some(i) {
          daily := saved;
          return false, 0;
        }
        FoldOne(events, daily, lastId, maxId, rows, i);
        daily := Upsert(daily, rows[i]);
      }
      FoldDone(events, daily, lastId, maxId, rows);
      watermark := maxId;
      ok, rolled := true, |rows|;
    }

    /** `Summary`: prompt, completion and request totals and the tokens together. */
    method Summary(tenant: string, from: int, until: int) returns (sums: Sums, totalTokens: int)
      requires Valid()
      ensures sums == ScanTotal(events, watermark, tenant, from, until)
      ensures totalTokens == sums.prompt + sums.completion
    {
      sums, totalTokens := ZERO, 0;
      for i := 0 to |daily|
        invariant sums == RowsTotal(daily[..i], tenant, from, until) && totalTokens == sums.prompt + sums.completion
      {
        assert daily[..i + 1][..i] == daily[..i];
        if Selected(daily[i].key, tenant, from, until) {
          sums, totalTokens := Plus(sums, daily[i].sums), totalTokens + (daily[i].sums.prompt + daily[i].sums.completion);
        }
      }
      assert daily[..|daily|] == daily;
      SummaryIsScan(events, daily, watermark, tenant, from, until);
    }
  }

  lemma GroupNone(lo: int, hi: int)
    ensures Grouped([], lo, hi, [])
  {
  }

  lemma MaxIdSnoc(events: seq<Event>, e: Event)
    ensures MaxId(events + [e]) == Max(MaxId(events), e.id)
  {
    assert (events + [e])[..|events|] == events;
  }
}
