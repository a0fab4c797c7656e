/**
 The per-address half of the Store object (internal/monitor/store.go): its three
 tables and the quota-cycle marker as fields, its transactions as methods, and the
 ranking query behind the dashboard's top list.
 */
module IpTraffic {
  import opened Wrappers
  import opened Tables
  import opened IpKey
  import opened IpStore

  datatype Window = Window(inb: int, outb: int, total: int)

  datatype Entry = Entry(ip: string, landing: string, relayed: bool, cycle: Window, today: Window, week: Window)

  function Reading(t: Tiers, key: string, since: int): Window {
    var inb, outb := SumAll(t, In, Since(key, since)), SumAll(t, Out, Since(key, since));
    Window(inb, outb, inb + outb)
  }

  /** The distinct keys of a table, as GROUP BY ip lists them. */
  function Keys(rows: seq<Row>): seq<string> {
    if rows == [] then []
    else if rows[0].key in Keys(rows[1..]) then Keys(rows[1..])
    else [rows[0].key] + Keys(rows[1..])
  }

  /** ORDER BY the cycle total, descending. */
  function Insert(t: Tiers, since: int, ranked: seq<string>, key: string): seq<string> {
    if ranked == [] then [key]
    else if Reading(t, key, since).total > Reading(t, ranked[0], since).total then [key] + ranked
    else [ranked[0]] + Insert(t, since, ranked[1..], key)
  }

  /** HAVING a positive cycle total. */
  function Ranked(t: Tiers, since: int, keys: seq<string>): seq<string> {
    if keys == [] then []
    else if Reading(t, keys[0], since).total > 0 then Insert(t, since, Ranked(t, since, keys[1..]), keys[0])
    else Ranked(t, since, keys[1..])
  }

  /** SQLite reads a negative LIMIT as none. */
  function Limited(ranked: seq<string>, limit: int): seq<string> {
    if 0 <= limit < |ranked| then ranked[..limit] else ranked
  }

  function Top(t: Tiers, limit: int, cycleStart: int): seq<string> {
    Limited(Ranked(t, cycleStart, Keys(t.samples + t.hourly + t.daily)), limit)
  }

  ghost predicate Distinct(keys: seq<string>) {
    forall i, j :: 0 <= i < j < |keys| ==> keys[i] != keys[j]
  }

  ghost predicate Descending(t: Tiers, since: int, keys: seq<string>) {
    forall i, j :: 0 <= i < j < |keys| ==> Reading(t, keys[i], since).total >= Reading(t, keys[j], since).total
  }

  lemma {:induction false} KeysAre(rows: seq<Row>)
    ensures Distinct(Keys(rows))
    ensures forall r :: r in rows ==> r.key in Keys(rows)
  {
    if rows != [] {
      KeysAre(rows[1..]);
      assert rows == [rows[0]] + rows[1..];
    }
  }

  lemma {:induction false} InsertMembers(t: Tiers, since: int, ranked: seq<string>, key: string)
    ensures forall k :: k in Insert(t, since, ranked, key) <==> k in ranked || k == key
  {
    hide Reading;
    if ranked != [] {
      assert ranked == [ranked[0]] + ranked[1..];
      InsertMembers(t, since, ranked[1..], key);
    }
  }

  lemma {:induction false} InsertDistinct(t: Tiers, since: int, ranked: seq<string>, key: string)
    requires Distinct(ranked) && key !in ranked
    ensures Distinct(Insert(t, since, ranked, key))
  {
    hide Reading;
    if ranked != [] {
      InsertMembers(t, since, ranked[1..], key);
      InsertDistinct(t, since, ranked[1..], key);
      assert forall i :: 0 <= i < |ranked| ==> ranked[i] in ranked && ranked[i] != key;
      var tail := Insert(t, since, ranked[1..], key);
      assert forall i :: 0 <= i < |ranked[1..]| ==> ranked[1..][i] == ranked[i + 1] != ranked[0];
      assert forall j :: 0 <= j < |tail| ==> tail[j] in tail;
      assert forall k :: k in tail ==> k in ranked[1..] || k == key;
      assert forall j :: 0 <= j < |tail| ==> tail[j] != ranked[0];
    }
  }

  lemma {:induction false} InsertDescends(t: Tiers, since: int, ranked: seq<string>, key: string)
    requires Descending(t, since, ranked)
    ensures Descending(t, since, Insert(t, since, ranked, key))
  {
    hide Reading;
    if ranked != [] && !(Reading(t, key, since).total > Reading(t, ranked[0], since).total) {
      var tail := Insert(t, since, ranked[1..], key);
      InsertMembers(t, since, ranked[1..], key);
      InsertDescends(t, since, ranked[1..], key);
      forall j | 0 <= j < |tail|
        ensures Reading(t, ranked[0], since).total >= Reading(t, tail[j], since).total
      {
        assert tail[j] in tail;
      }
    }
  }

  lemma {:induction false} RankedIs(t: Tiers, since: int, keys: seq<string>)
    requires Distinct(keys)
    ensures Descending(t, since, Ranked(t, since, keys)) && Distinct(Ranked(t, since, keys))
    ensures forall k :: k in Ranked(t, since, keys) <==> k in keys && Reading(t, k, since).total > 0
  {
    hide Reading;
    if keys != [] {
      assert keys == [keys[0]] + keys[1..];
      assert forall i :: 0 <= i < |keys[1..]| ==> keys[1..][i] == keys[i + 1];
      RankedIs(t, since, keys[1..]);
      assert keys[0] !in keys[1..];
      if Reading(t, keys[0], since).total > 0 {
        var rest := Ranked(t, since, keys[1..]);
        InsertMembers(t, since, rest, keys[0]);
        InsertDistinct(t, since, rest, keys[0]);
        InsertDescends(t, since, rest, keys[0]);
      }
    }
  }

  lemma {:induction false} SumWithoutKey(rows: seq<Row>, d: Direction, of: string, since: int)
    requires forall r :: r in rows ==> r.key != of
    ensures Sum(rows, d, Since(of, since)) == 0
  {
    if rows != [] {
      assert rows[0] in rows;
      assert forall r :: r in rows[1..] ==> r in rows;
      SumWithoutKey(rows[1..], d, of, since);
    }
  }

  lemma MissingKeyReadsZero(t: Tiers, key: string, since: int)
    requires key !in Keys(t.samples + t.hourly + t.daily)
    ensures Reading(t, key, since).total == 0
  {
    var all := t.samples + t.hourly + t.daily;
    KeysAre(all);
    forall r | r in t.samples || r in t.hourly || r in t.daily ensures r.key != key {
      assert r in all;
    }
    SumWithoutKey(t.samples, In, key, since);
    SumWithoutKey(t.hourly, In, key, since);
    SumWithoutKey(t.daily, In, key, since);
    SumWithoutKey(t.samples, Out, key, since);
    SumWithoutKey(t.hourly, Out, key, since);
    SumWithoutKey(t.daily, Out, key, since);
  }

  /**
   The top list holds each key once, in descending order of the cycle total, and
   misses a key with traffic only when it is full of keys that moved no less.
   */
  lemma TopIs(t: Tiers, limit: int, cycleStart: int)
    ensures var top := Top(t, limit, cycleStart);
      && Distinct(top) && Descending(t, cycleStart, top)
      && (limit >= 0 ==> |top| <= limit)
      && (forall k :: k in top ==> Reading(t, k, cycleStart).total > 0)
      && (forall k :: k !in top && Reading(t, k, cycleStart).total > 0 ==>
            |top| == limit && forall b :: b in top ==>
              Reading(t, b, cycleStart).total >= Reading(t, k, cycleStart).total)
  {
    hide Reading;
    var keys := Keys(t.samples + t.hourly + t.daily);
    KeysAre(t.samples + t.hourly + t.daily);
    RankedIs(t, cycleStart, keys);
    var ranked, top := Ranked(t, cycleStart, keys), Top(t, limit, cycleStart);
    forall k | k !in top && Reading(t, k, cycleStart).total > 0
      ensures |top| == limit && forall b :: b in top ==>
        Reading(t, b, cycleStart).total >= Reading(t, k, cycleStart).total
    {
      if k !in keys {
        MissingKeyReadsZero(t, k, cycleStart);
      }
      assert k in ranked;
      var j :| 0 <= j < |ranked| && ranked[j] == k;
      assert j >= |top|;
    }
  }

  class Store {
    var samples: seq<Row>
    var hourly: seq<Row>
    var daily: seq<Row>
    var recordedCycle: Option<int>
    /** Everything done to the tables since they were created. */
    ghost var ops: seq<Op>

    ghost function Tables(): Tiers
      reads this
    {
      Tiers(samples, hourly, daily)
    }

    ghost predicate Valid()
      reads this
    {
      NonNegativeOps(ops) && Tables() == Run(ops).tiers
    }

    constructor ()
      ensures Valid() && ops == [] && recordedCycle == None
    {
      samples, hourly, daily, recordedCycle, ops := [], [], [], None, [];
    }

    /** One round of deltas, in whatever order the map is iterated. */
    method AddIPTraffic(ts: nat, deltas: map<string, Bytes>, commits: bool) returns (ok: bool, ghost rows: seq<Row>)
      requires Valid()
      requires forall k :: k in deltas ==> deltas[k].NonNegative()
      modifies this
      ensures Valid() && recordedCycle == old(recordedCycle)
      ensures ok <==> deltas == map[] || commits
      ensures ok && deltas != map[] ==> ops == old(ops) + [Round(rows)]
      ensures !ok || deltas == map[] ==> ops == old(ops) && Tables() == old(Tables())
      ensures ok ==> UniqueKeys(rows) && |rows| == |deltas|
      ensures ok ==> forall k :: k in deltas ==> Row(ts, k, deltas[k]) in rows
    {
      rows := [];
      if |deltas| == 0 {
        assert deltas == map[];
        return true, rows;
      }
      var table;
      table, rows := InsertRound(samples, ts, deltas);
      if !commits {
        return false, rows;
      }
      samples := table;
      ops := ops + [Round(rows)];
      assert ops[..|ops| - 1] == old(ops);
      return true, rows;
    }

    static method InsertRound(start: seq<Row>, ts: nat, deltas: map<string, Bytes>) returns (table: seq<Row>, ghost rows: seq<Row>)
      requires forall k :: k in deltas ==> deltas[k].NonNegative()
      ensures table == UpsertAll(start, rows)
      ensures UniqueKeys(rows) && |rows| == |deltas| && NonNegativeRows(rows)
      ensures forall k :: k in deltas ==> Row(ts, k, deltas[k]) in rows
    {
      hide Upsert, UpsertAll;
      table, rows := start, [];
      assert UpsertAll(start, []) == start by { UpsertNothing(start); }
      var left := deltas.Keys;
      while left != {}
        invariant left <= deltas.Keys
        invariant table == UpsertAll(start, rows)
        invariant |rows| + |left| == |deltas|
        invariant forall i :: 0 <= i < |rows| ==>
          rows[i].key in deltas.Keys - left && rows[i].ts == ts && rows[i].bytes == deltas[rows[i].key]
        invariant forall k :: k in deltas.Keys - left ==> Row(ts, k, deltas[k]) in rows
        invariant UniqueKeys(rows)
        decreases left
      {
        var address :| address in left;
        UpsertAllSnoc(start, rows, Row(ts, address, deltas[address]));
        table := Upsert(table, Row(ts, address, deltas[address]));
        rows := rows + [Row(ts, address, deltas[address])];
        left := left - {address};
      }
    }

    method AggregateIPHourly(before: int, commits: bool) returns (ok: bool)
      requires Valid()
      modifies this
      ensures Valid() && ok == commits && recordedCycle == old(recordedCycle)
      ensures Tables() == if ok then AfterFoldHours(old(Tables()), before) else old(Tables())
      ensures ops == if ok then old(ops) + [FoldHours(before)] else old(ops)
    {
      if commits {
        hourly := Fold(hourly, samples, before, HOUR);
        samples := NotOlder(samples, before);
        ops := ops + [FoldHours(before)];
        assert ops[..|ops| - 1] == old(ops);
      }
      return commits;
    }

    method AggregateIPDaily(before: int, commits: bool) returns (ok: bool)
      requires Valid()
      modifies this
      ensures Valid() && ok == commits && recordedCycle == old(recordedCycle)
      ensures Tables() == if ok then AfterFoldDays(old(Tables()), before) else old(Tables())
      ensures ops == if ok then old(ops) + [FoldDays(before)] else old(ops)
    {
      if commits {
        daily := Fold(daily, hourly, before, DAY);
        hourly := NotOlder(hourly, before);
        ops := ops + [FoldDays(before)];
        assert ops[..|ops| - 1] == old(ops);
      }
      return commits;
    }

    /** Three deletes in one transaction, each ranking the tables as the last left them. */
    method PruneIPTraffic(keep: int, commits: bool) returns (ok: bool)
      requires Valid()
      modifies this
      ensures Valid() && recordedCycle == old(recordedCycle)
      ensures ok <==> keep <= 0 || commits
      ensures ok && keep > 0 ==> Tables() == KeptTiers(old(Tables()), Busiest(old(Tables()), keep))
      ensures ok && keep > 0 ==> ops == old(ops) + [Prune(keep)]
      ensures !ok || keep <= 0 ==> Tables() == old(Tables()) && ops == old(ops)
    {
      hide KeptTiers, Busiest, AfterPrune, Addresses;
      if keep <= 0 {
        return true;
      }
      ghost var start := Tables();
      var t := DeleteTheRest(Tiers(samples, hourly, daily), keep);
      if !commits {
        return false;
      }
      samples, hourly, daily := t.samples, t.hourly, t.daily;
      RunWellFormed(old(ops));
      PruneKeepsWholeAddresses(start, keep);
      ops := ops + [Prune(keep)];
      assert ops[..|ops| - 1] == old(ops);
      return true;
    }

    static method DeleteTheRest(start: Tiers, keep: nat) returns (t: Tiers)
      requires keep > 0
      ensures t == AfterPrune(start, keep)
    {
      hide PruneTier;
      t := start;
      var tier := 0;
      while tier < 3
        invariant tier <= 3 && t == PruneTiers(start, tier, keep)
      {
        t := PruneTier(t, tier, keep);
        tier := tier + 1;
      }
    }

    /** A cycle rollover clears every tier; the first cycle ever seen only leaves its mark. */
    method ResetIPTrafficForCycle(cycleStart: int, commits: bool) returns (cleared: bool, ok: bool)
      requires Valid()
      modifies this
      ensures Valid()
      ensures ok <==> recordedCycle == Some(cycleStart)
      ensures old(recordedCycle) == Some(cycleStart) || commits ==> ok
      ensures cleared && ok <==> ok && old(recordedCycle).Some? && old(recordedCycle) != Some(cycleStart)
      ensures ops == if cleared && ok then old(ops) + [Clear] else old(ops)
      ensures Tables() == if cleared && ok then EMPTY else old(Tables())
      ensures !ok ==> recordedCycle == old(recordedCycle)
    {
      if recordedCycle == Some(cycleStart) {
        return false, true;
      }
      cleared := recordedCycle.Some?;
      if !commits {
        return cleared, false;
      }
      if cleared {
        samples, hourly, daily := [], [], [];
        ops := ops + [Clear];
        assert ops[..|ops| - 1] == old(ops);
      }
      recordedCycle := Some(cycleStart);
      ok := true;
    }

    /** An operator's reset clears every tier and leaves the cycle marker alone. */
    method ResetIPTraffic(commits: bool) returns (ok: bool)
      requires Valid()
      modifies this
      ensures Valid() && ok == commits && recordedCycle == old(recordedCycle)
      ensures Tables() == if ok then EMPTY else old(Tables())
      ensures ops == if ok then old(ops) + [Clear] else old(ops)
    {
      if commits {
        samples, hourly, daily := [], [], [];
        ops := ops + [Clear];
        assert ops[..|ops| - 1] == old(ops);
      }
      return commits;
    }

    /**
     The dashboard's top list. Its two GMT-aligned windows always equal what was
     inserted; so does the cycle window unless a day fold reached past its start.
     */
    method TopIPTraffic(limit: int, cycleStart: int, todayStart: int, weekStart: int) returns (entries: seq<Entry>)
      requires Valid()
      ensures |entries| == |Top(Tables(), limit, cycleStart)|
      ensures var top := Top(Tables(), limit, cycleStart);
        forall i :: 0 <= i < |top| ==>
          && Decode(top[i]) == Decoded(entries[i].ip, entries[i].landing, entries[i].relayed)
          && entries[i].cycle == Reading(Tables(), top[i], cycleStart)
          && entries[i].today == Reading(Tables(), top[i], todayStart)
          && entries[i].week == Reading(Tables(), top[i], weekStart)
      ensures todayStart % DAY == 0 ==> forall i :: 0 <= i < |entries| ==>
        entries[i].today == Inserted(Run(ops).history, Top(Tables(), limit, cycleStart)[i], todayStart)
      ensures weekStart % DAY == 0 ==> forall i :: 0 <= i < |entries| ==>
        entries[i].week == Inserted(Run(ops).history, Top(Tables(), limit, cycleStart)[i], weekStart)
      ensures cycleStart % HOUR == 0 && (forall op :: op in ops && op.FoldDays? ==> op.before <= cycleStart) ==>
        forall i :: 0 <= i < |entries| ==>
          entries[i].cycle == Inserted(Run(ops).history, Top(Tables(), limit, cycleStart)[i], cycleStart)
    {
      hide Run, Top, Decode, NonNegativeOps;
      var t := Tiers(samples, hourly, daily);
      var top := Top(t, limit, cycleStart);
      entries := [];
      while |entries| < |top|
        invariant |entries| <= |top|
        invariant forall i :: 0 <= i < |entries| ==>
          && Decode(top[i]) == Decoded(entries[i].ip, entries[i].landing, entries[i].relayed)
          && entries[i].cycle == Reading(t, top[i], cycleStart)
          && entries[i].today == Reading(t, top[i], todayStart)
          && entries[i].week == Reading(t, top[i], weekStart)
      {
        var key := top[|entries|];
        var d := Decode(key);
        entries := entries + [Entry(d.address, d.landing, d.relayed,
          Reading(t, key, cycleStart), Reading(t, key, todayStart), Reading(t, key, weekStart))];
      }
      forall i | 0 <= i < |entries|
        ensures todayStart % DAY == 0 ==> entries[i].today == Inserted(Run(ops).history, top[i], todayStart)
        ensures weekStart % DAY == 0 ==> entries[i].week == Inserted(Run(ops).history, top[i], weekStart)
      {
        if todayStart % DAY == 0 { DayReadingExact(ops, top[i], todayStart); }
        if weekStart % DAY == 0 { DayReadingExact(ops, top[i], weekStart); }
      }
      if cycleStart % HOUR == 0 && forall op :: op in ops && op.FoldDays? ==> op.before <= cycleStart {
        forall i | 0 <= i < |entries|
          ensures entries[i].cycle == Inserted(Run(ops).history, top[i], cycleStart)
        {
          HourAlignedWindow(ops, In, top[i], cycleStart);
          HourAlignedWindow(ops, Out, top[i], cycleStart);
        }
      }
    }
  }

  /** What the plain list of inserted rows says a window should read. */
  function Inserted(history: seq<Row>, key: string, since: int): Window {
    var inb, outb := Sum(history, In, Since(key, since)), Sum(history, Out, Since(key, since));
    Window(inb, outb, inb + outb)
  }

  lemma DayReadingExact(ops: seq<Op>, key: string, since: int)
    requires NonNegativeOps(ops) && since % DAY == 0
    ensures Reading(Run(ops).tiers, key, since) == Inserted(Run(ops).history, key, since)
  {
    DayAlignedWindow(ops, In, key, since);
    DayAlignedWindow(ops, Out, key, since);
  }

  lemma UpsertNothing(t: seq<Row>)
    ensures UpsertAll(t, []) == t
  {
  }

  lemma {:induction false} UpsertAllSnoc(t: seq<Row>, rows: seq<Row>, r: Row)
    ensures UpsertAll(t, rows + [r]) == Upsert(UpsertAll(t, rows), r)
    decreases rows
  {
    if rows == [] {
      assert rows + [r] == [r];
      assert [r][1..] == [];
    } else {
      assert (rows + [r])[1..] == rows[1..] + [r];
      UpsertAllSnoc(Upsert(t, rows[0]), rows[1..], r);
    }
  }
}
