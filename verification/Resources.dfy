/**
 Resource history (internal/monitor/store.go): raw CPU, memory, disk and disk traffic
 readings fold into one row an hour. Folds of the same hour cover unequal spans, so
 averages merge weighted by sample count. Percentages are exact reals here; the disk
 traffic columns hold integers, so each fold of an hour rounds its average down.
 */
module Resources {
  import opened Wrappers

  const HOUR: nat := 3600

  datatype Metric = Cpu | Mem | Disk | DiskRead | DiskWrite

  /** The metrics stored in integer columns. */
  predicate Whole(m: Metric) {
    m.DiskRead? || m.DiskWrite?
  }

  datatype Reading = Reading(ts: nat, cpu: real, mem: real, disk: real, diskRead: nat, diskWrite: nat)

  function Value(r: Reading, m: Metric): real {
    match m
    case Cpu => r.cpu
    case Mem => r.mem
    case Disk => r.disk
    case DiskRead => r.diskRead as real
    case DiskWrite => r.diskWrite as real
  }

  datatype Stat = Stat(avg: real, max: real)

  /** One row of resource_hourly, keyed by its hour. */
  datatype HourRow = HourRow(cpu: Stat, mem: Stat, disk: Stat, diskRead: Stat, diskWrite: Stat, count: nat)

  function StatOf(r: HourRow, m: Metric): Stat {
    match m
    case Cpu => r.cpu
    case Mem => r.mem
    case Disk => r.disk
    case DiskRead => r.diskRead
    case DiskWrite => r.diskWrite
  }

  function HourOf(r: Reading): nat {
    r.ts / HOUR * HOUR
  }

  function Count(rs: seq<Reading>, hour: nat): nat {
    if rs == [] then 0 else (if HourOf(rs[0]) == hour then 1 else 0) + Count(rs[1..], hour)
  }

  function Total(rs: seq<Reading>, hour: nat, m: Metric): real {
    if rs == [] then 0.0 else (if HourOf(rs[0]) == hour then Value(rs[0], m) else 0.0) + Total(rs[1..], hour, m)
  }

  function Larger(a: real, b: real): real {
    if a >= b then a else b
  }

  function Greatest(rs: seq<Reading>, hour: nat, m: Metric): Option<real> {
    if rs == [] then None
    else
      var rest := Greatest(rs[1..], hour, m);
      if HourOf(rs[0]) != hour then rest
      else match rest
        case None => Some(Value(rs[0], m))
        case Some(x) => Some(Larger(Value(rs[0], m), x))
  }

  function Older(rs: seq<Reading>, before: int): seq<Reading> {
    if rs == [] then [] else if rs[0].ts < before then [rs[0]] + Older(rs[1..], before) else Older(rs[1..], before)
  }

  function NotOlder(rs: seq<Reading>, before: int): seq<Reading> {
    if rs == [] then [] else if rs[0].ts < before then NotOlder(rs[1..], before) else [rs[0]] + NotOlder(rs[1..], before)
  }

  // ------------------------------------------------------------ the fold

  /** The value a column keeps of x. */
  function Column(m: Metric, x: real): real {
    if Whole(m) then x.Floor as real else x
  }

  /** AVG and MAX of one metric over one hour's group. */
  function GroupStat(rs: seq<Reading>, hour: nat, m: Metric): Stat
    requires Count(rs, hour) > 0
  {
    GreatestExists(rs, hour, m);
    Stat(Column(m, Total(rs, hour, m) / Count(rs, hour) as real), Greatest(rs, hour, m).value)
  }

  function GroupRow(rs: seq<Reading>, hour: nat): HourRow
    requires Count(rs, hour) > 0
  {
    HourRow(GroupStat(rs, hour, Cpu), GroupStat(rs, hour, Mem), GroupStat(rs, hour, Disk),
            GroupStat(rs, hour, DiskRead), GroupStat(rs, hour, DiskWrite), Count(rs, hour))
  }

  /** GROUP BY hour. */
  function Groups(rs: seq<Reading>): (g: map<nat, HourRow>)
    ensures g.Keys == HoursOf(rs)
    ensures forall h :: h in g ==> Count(rs, h) > 0 && g[h] == GroupRow(rs, h) && g[h].count > 0
  {
    assert forall h :: h in HoursOf(rs) ==> Count(rs, h) > 0 by {
      forall h | h in HoursOf(rs) ensures Count(rs, h) > 0 { HoursCount(rs, h); }
    }
    map h | h in HoursOf(rs) :: GroupRow(rs, h)
  }

  function HoursOf(rs: seq<Reading>): set<nat> {
    set r | r in rs :: HourOf(r)
  }

  /** The weighted merge of the ON CONFLICT clause. */
  function MergeStat(m: Metric, a: Stat, n: nat, b: Stat, k: nat): Stat
    requires n + k > 0
  {
    Stat(Column(m, (Times(a.avg, n) + Times(b.avg, k)) / (n + k) as real), Larger(a.max, b.max))
  }

  function MergeRow(a: HourRow, b: HourRow): HourRow
    requires a.count + b.count > 0
  {
    HourRow(MergeStat(Cpu, a.cpu, a.count, b.cpu, b.count), MergeStat(Mem, a.mem, a.count, b.mem, b.count),
            MergeStat(Disk, a.disk, a.count, b.disk, b.count), MergeStat(DiskRead, a.diskRead, a.count, b.diskRead, b.count),
            MergeStat(DiskWrite, a.diskWrite, a.count, b.diskWrite, b.count), a.count + b.count)
  }

  function Merge(table: map<nat, HourRow>, groups: map<nat, HourRow>): map<nat, HourRow>
    requires forall h :: h in groups ==> groups[h].count > 0
  {
    map h | h in table.Keys + groups.Keys ::
      if h in table && h in groups then MergeRow(table[h], groups[h])
      else if h in table then table[h]
      else groups[h]
  }

  /** How many groups went into each hour. */
  function MergeParts(a: map<nat, nat>, b: map<nat, nat>): map<nat, nat> {
    map h | h in a.Keys + b.Keys :: (if h in a then a[h] else 0) + (if h in b then b[h] else 0)
  }

  // ------------------------------------------------------------ what a row stands for

  /**
   One metric of r describes one hour's readings: the exact mean, or in an integer
   column a value at most the mean and above it less one per group, and the maximum.
   */
  ghost predicate SummarizesIn(r: HourRow, rs: seq<Reading>, hour: nat, m: Metric, parts: nat) {
    && MeanIs(Whole(m), StatOf(r, m).avg, r.count, Total(rs, hour, m), parts)
    && Some(StatOf(r, m).max) == Greatest(rs, hour, m)
  }

  ghost predicate MeanIs(whole: bool, avg: real, count: nat, total: real, parts: nat) {
    if whole then Times(avg, count) <= total < Times(avg + parts as real, count) else Times(avg, count) == total
  }

  function Times(x: real, n: nat): real {
    x * n as real
  }

  /** r, put together from so many groups, is the count and the statistics of one hour's readings. */
  ghost predicate Summarizes(r: HourRow, rs: seq<Reading>, hour: nat, parts: nat) {
    parts > 0 && r.count == Count(rs, hour) > 0 && forall m :: SummarizesIn(r, rs, hour, m, parts)
  }

  /** The table has a row for exactly the hours with readings, and each row describes them. */
  ghost predicate Represents(table: map<nat, HourRow>, rs: seq<Reading>, parts: map<nat, nat>) {
    && table.Keys == parts.Keys
    && (forall h :: h in table <==> Count(rs, h) > 0)
    && (forall h :: h in table ==> Summarizes(table[h], rs, h, parts[h]))
  }

  lemma {:induction false} GreatestExists(rs: seq<Reading>, hour: nat, m: Metric)
    ensures Greatest(rs, hour, m).Some? <==> Count(rs, hour) > 0
  {
    if rs != [] {
      GreatestExists(rs[1..], hour, m);
    }
  }

  lemma {:induction false} HoursCount(rs: seq<Reading>, hour: nat)
    ensures hour in HoursOf(rs) <==> Count(rs, hour) > 0
  {
    if rs != [] {
      HoursCount(rs[1..], hour);
      assert rs == [rs[0]] + rs[1..];
    }
  }

  function Greater(a: Option<real>, b: Option<real>): Option<real> {
    match (a, b)
    case (None, _) => b
    case (_, None) => a
    case (Some(x), Some(y)) => Some(Larger(x, y))
  }

  lemma {:induction false} Appended(a: seq<Reading>, b: seq<Reading>, hour: nat, m: Metric)
    ensures Count(a + b, hour) == Count(a, hour) + Count(b, hour)
    ensures Total(a + b, hour, m) == Total(a, hour, m) + Total(b, hour, m)
    ensures Greatest(a + b, hour, m) == Greater(Greatest(a, hour, m), Greatest(b, hour, m))
  {
    if a == [] {
      assert a + b == b;
    } else {
      assert (a + b)[0] == a[0] && (a + b)[1..] == a[1..] + b;
      Appended(a[1..], b, hour, m);
    }
  }

  lemma {:induction false} SplitCount(rs: seq<Reading>, before: int, hour: nat)
    ensures Count(rs, hour) == Count(Older(rs, before), hour) + Count(NotOlder(rs, before), hour)
  {
    if rs != [] {
      SplitCount(rs[1..], before, hour);
      hide HourOf;
    }
  }

  lemma {:induction false} SplitTotal(rs: seq<Reading>, before: int, hour: nat, m: Metric)
    ensures Total(rs, hour, m) == Total(Older(rs, before), hour, m) + Total(NotOlder(rs, before), hour, m)
  {
    if rs != [] {
      SplitTotal(rs[1..], before, hour, m);
      hide HourOf, Value;
    }
  }

  lemma {:induction false} SplitGreatest(rs: seq<Reading>, before: int, hour: nat, m: Metric)
    ensures Greatest(rs, hour, m) == Greater(Greatest(Older(rs, before), hour, m), Greatest(NotOlder(rs, before), hour, m))
  {
    if rs != [] {
      SplitGreatest(rs[1..], before, hour, m);
      hide HourOf, Value;
    }
  }

  lemma Split(rs: seq<Reading>, before: int, hour: nat, m: Metric)
    ensures Count(rs, hour) == Count(Older(rs, before), hour) + Count(NotOlder(rs, before), hour)
    ensures Total(rs, hour, m) == Total(Older(rs, before), hour, m) + Total(NotOlder(rs, before), hour, m)
    ensures Greatest(rs, hour, m) == Greater(Greatest(Older(rs, before), hour, m), Greatest(NotOlder(rs, before), hour, m))
  {
    SplitCount(rs, before, hour);
    SplitTotal(rs, before, hour, m);
    SplitGreatest(rs, before, hour, m);
  }

  lemma Mean(total: real, n: nat)
    requires n > 0
    ensures Times(total / n as real, n) == total
  {
  }

  /** Rounding a mean down costs less than one. */
  lemma RoundedMean(m: Metric, total: real, n: nat)
    requires n > 0
    ensures MeanIs(Whole(m), Column(m, total / n as real), n, total, 1)
  {
    Mean(total, n);
    var x := total / n as real;
    Scaled(x.Floor as real, x, n);
    Scaled(x, x.Floor as real + 1.0, n);
  }

  lemma Scaled(x: real, y: real, n: nat)
    requires x <= y && n > 0
    ensures Times(x, n) <= Times(y, n)
    ensures x < y ==> Times(x, n) < Times(y, n)
  {
  }

  lemma GroupStatMeans(rs: seq<Reading>, hour: nat, m: Metric)
    requires Count(rs, hour) > 0
    ensures SummarizesIn(GroupRow(rs, hour), rs, hour, m, 1)
  {
    hide Total, Greatest, Count, Column;
    GreatestExists(rs, hour, m);
    RoundedMean(m, Total(rs, hour, m), Count(rs, hour));
    assert StatOf(GroupRow(rs, hour), m) == GroupStat(rs, hour, m);
  }

  lemma GroupSummarizes(rs: seq<Reading>, hour: nat)
    requires Count(rs, hour) > 0
    ensures Summarizes(GroupRow(rs, hour), rs, hour, 1)
  {
    GroupCount(rs, hour);
    hide SummarizesIn, Count, GroupRow;
    forall m: Metric ensures SummarizesIn(GroupRow(rs, hour), rs, hour, m, 1) {
      GroupStatMeans(rs, hour, m);
    }
  }

  lemma GroupCount(rs: seq<Reading>, hour: nat)
    requires Count(rs, hour) > 0
    ensures GroupRow(rs, hour).count == Count(rs, hour)
  {
  }

  function OnePart(hours: set<nat>): map<nat, nat> {
    map h | h in hours :: 1
  }

  lemma GroupsRepresent(rs: seq<Reading>)
    ensures Represents(Groups(rs), rs, OnePart(Groups(rs).Keys))
  {
    hide Summarizes, Count, GroupRow, HoursOf;
    forall h: nat ensures h in Groups(rs) <==> Count(rs, h) > 0 {
      HoursCount(rs, h);
    }
    forall h: nat | h in Groups(rs) ensures Summarizes(Groups(rs)[h], rs, h, 1) {
      GroupSummarizes(rs, h);
    }
  }

  /** A weighted average of two means is the mean of both, and rounding it down costs one more. */
  lemma MergedMean(m: Metric, x: real, n: nat, p: nat, s: real, y: real, k: nat, q: nat, t: real)
    requires n > 0 && k > 0 && p > 0 && q > 0
    requires MeanIs(Whole(m), x, n, s, p) && MeanIs(Whole(m), y, k, t, q)
    ensures MeanIs(Whole(m), Column(m, (Times(x, n) + Times(y, k)) / (n + k) as real), n + k, s + t, p + q)
  {
    hide Column, Times;
    var both := Times(x, n) + Times(y, k);
    RoundedMean(m, both, n + k);
    if Whole(m) {
      Distributes(x, p, n);
      Distributes(y, q, k);
      Deficits(p, q, n, k);
      var avg := Column(m, both / (n + k) as real);
      Distributes(avg + 1.0, p + q - 1, n + k);
      assert avg + 1.0 + (p + q - 1) as real == avg + (p + q) as real;
    }
  }

  lemma Distributes(x: real, p: nat, n: nat)
    ensures Times(x + p as real, n) == Times(x, n) + (p * n) as real
  {
    Product(p, n);
  }

  lemma Product(p: nat, n: nat)
    ensures p as real * n as real == (p * n) as real
  {
  }

  lemma Deficits(p: nat, q: nat, n: nat, k: nat)
    requires p > 0 && q > 0
    ensures p * n + q * k <= (p + q - 1) * (n + k)
  {
    assert (p + q - 1) * (n + k) == p * n + q * k + (q - 1) * n + (p - 1) * k;
  }

  lemma MergedStat(a: HourRow, b: HourRow, m: Metric)
    requires a.count + b.count > 0
    ensures StatOf(MergeRow(a, b), m) == MergeStat(m, StatOf(a, m), a.count, StatOf(b, m), b.count)
    ensures MergeRow(a, b).count == a.count + b.count
  {
  }

  lemma MergeRowSummarizesIn(a: HourRow, p: nat, b: HourRow, q: nat, left: seq<Reading>, right: seq<Reading>, hour: nat, m: Metric)
    requires a.count > 0 && b.count > 0 && p > 0 && q > 0
    requires SummarizesIn(a, left, hour, m, p) && SummarizesIn(b, right, hour, m, q)
    ensures SummarizesIn(MergeRow(a, b), left + right, hour, m, p + q)
  {
    hide Total, Greatest, MergeRow, StatOf, MeanIs, Column, Times;
    Appended(left, right, hour, m);
    MergedStat(a, b, m);
    MergedMean(m, StatOf(a, m).avg, a.count, p, Total(left, hour, m), StatOf(b, m).avg, b.count, q, Total(right, hour, m));
  }

  lemma MergeRowSummarizes(a: HourRow, p: nat, b: HourRow, q: nat, left: seq<Reading>, right: seq<Reading>, hour: nat)
    requires Summarizes(a, left, hour, p) && Summarizes(b, right, hour, q)
    ensures Summarizes(MergeRow(a, b), left + right, hour, p + q)
  {
    var parts := p + q;
    hide Count, MergeRow, SummarizesIn;
    Appended(left, right, hour, Cpu);
    MergedStat(a, b, Cpu);
    forall m: Metric ensures SummarizesIn(MergeRow(a, b), left + right, hour, m, parts) {
      MergeRowSummarizesIn(a, p, b, q, left, right, hour, m);
    }
  }

  lemma NothingThere(rs: seq<Reading>, hour: nat, m: Metric)
    requires Count(rs, hour) == 0
    ensures Total(rs, hour, m) == 0.0 && Greatest(rs, hour, m) == None
  {
    GreatestExists(rs, hour, m);
    NoTotal(rs, hour, m);
  }

  lemma {:induction false} NoTotal(rs: seq<Reading>, hour: nat, m: Metric)
    requires Count(rs, hour) == 0
    ensures Total(rs, hour, m) == 0.0
  {
    if rs != [] {
      NoTotal(rs[1..], hour, m);
    }
  }

  lemma SummarizesMore(r: HourRow, rs: seq<Reading>, extra: seq<Reading>, hour: nat, parts: nat)
    requires Summarizes(r, rs, hour, parts) && Count(extra, hour) == 0
    ensures Summarizes(r, rs + extra, hour, parts) && Summarizes(r, extra + rs, hour, parts)
  {
    forall m: Metric
      ensures SummarizesIn(r, rs + extra, hour, m, parts) && SummarizesIn(r, extra + rs, hour, m, parts)
    {
      hide MeanIs;
      assert SummarizesIn(r, rs, hour, m, parts);
      Appended(rs, extra, hour, m);
      Appended(extra, rs, hour, m);
      NothingThere(extra, hour, m);
    }
    Appended(rs, extra, hour, Cpu);
    Appended(extra, rs, hour, Cpu);
  }

  /** Merging the tables of two lists of readings gives the table of both together. */
  lemma MergeRepresents(a: map<nat, HourRow>, p: map<nat, nat>, b: map<nat, HourRow>, q: map<nat, nat>, left: seq<Reading>, right: seq<Reading>)
    requires Represents(a, left, p) && Represents(b, right, q)
    ensures Represents(Merge(a, b), left + right, MergeParts(p, q))
  {
    assert forall h :: h in b ==> b[h].count > 0;
    hide Summarizes, MergeRow, Count;
    var merged, parts := Merge(a, b), MergeParts(p, q);
    forall h: nat ensures Count(left + right, h) == Count(left, h) + Count(right, h) {
      Appended(left, right, h, Cpu);
    }
    forall h | h in merged ensures Summarizes(merged[h], left + right, h, parts[h]) {
      if h in a && h in b {
        MergeRowSummarizes(a[h], p[h], b[h], q[h], left, right, h);
      } else if h in a {
        SummarizesMore(a[h], left, right, h, p[h]);
      } else {
        SummarizesMore(b[h], right, left, h, q[h]);
      }
    }
  }

  // ------------------------------------------------------------ the store

  class Store {
    var samples: seq<Reading>
    var table: map<nat, HourRow>
    /** The readings already folded, and every reading ever inserted. */
    ghost var folded: seq<Reading>
    ghost var history: seq<Reading>
    /** How many folds each hour was put together from. */
    ghost var parts: map<nat, nat>

    ghost predicate Valid()
      reads this
    {
      && Represents(table, folded, parts)
      && SameReadings(history, folded + samples)
    }

    constructor ()
      ensures Valid() && history == [] && samples == [] && table == map[]
    {
      samples, table, folded, history, parts := [], map[], [], [], map[];
      new;
      assert folded + samples == [];
    }

    method InsertResourceSample(r: Reading)
      requires Valid()
      modifies this
      ensures Valid() && history == old(history) + [r] && table == old(table) && parts == old(parts)
    {
      AppendSame(history, folded + samples, [r]);
      assert folded + (samples + [r]) == (folded + samples) + [r];
      samples := samples + [r];
      history := history + [r];
    }

    method AggregateResourceHourly(before: int, commits: bool) returns (ok: bool)
      requires Valid()
      modifies this
      ensures Valid() && history == old(history) && ok == commits
      ensures samples == if ok then NotOlder(old(samples), before) else old(samples)
      ensures table == if ok then Merge(old(table), Groups(Older(old(samples), before))) else old(table)
      ensures parts == if ok then MergeParts(old(parts), OnePart(Groups(Older(old(samples), before)).Keys)) else old(parts)
    {
      hide Summarizes, Represents, SameReadings, Count, GroupRow, MergeRow, Older, NotOlder, HoursOf;
      if commits {
        var old' := Older(samples, before);
        GroupsRepresent(old');
        MergeRepresents(table, parts, Groups(old'), OnePart(Groups(old').Keys), folded, old');
        parts := MergeParts(parts, OnePart(Groups(old').Keys));
        SplitSame(history, folded, samples, before);
        table := Merge(table, Groups(old'));
        samples := NotOlder(samples, before);
        folded := folded + old';
      }
      return commits;
    }

    /** The delete of old hours: every hour from the cutoff on keeps its statistics, an older one only its raw readings. */
    method Cleanup(cutoff: int, commits: bool) returns (ok: bool)
      requires Valid()
      modifies this
      ensures Valid() && ok == commits && samples == old(samples)
      ensures table == if ok then map h | h in old(table) && h >= cutoff :: old(table)[h] else old(table)
      ensures forall h: nat, m: Metric :: !ok || h >= cutoff ==> SameIn(history, old(history), h, m)
      ensures forall h: nat, m: Metric :: ok && h < cutoff ==> SameIn(history, samples, h, m)
    {
      if commits {
        forall h: nat, m: Metric
          ensures h >= cutoff ==> SameIn(FromHour(folded, cutoff) + samples, history, h, m)
          ensures h < cutoff ==> SameIn(FromHour(folded, cutoff) + samples, samples, h, m)
        {
          assert SameIn(history, folded + samples, h, m);
          FromHourIs(folded, cutoff, h, m);
          Appended(folded, samples, h, m);
          Appended(FromHour(folded, cutoff), samples, h, m);
        }
        FromHourRepresents(table, folded, parts, cutoff);
        parts := map h | h in parts && h >= cutoff :: parts[h];
        table := map h | h in table && h >= cutoff :: table[h];
        folded := FromHour(folded, cutoff);
        history := folded + samples;
      }
      return commits;
    }

    /**
     Each hour of the trend that begins at or after the start describes all its readings,
     from at most one part more than it was folded in; the hour the start falls into, if
     it is shown, describes its unfolded readings since the start.
     */
    method ResourceTrendHourly(since: int) returns (trend: map<nat, HourRow>)
      requires Valid()
      ensures forall h: nat :: h in trend <==> Count(if h >= since then history else NotOlder(samples, since), h) > 0
      ensures forall h :: h in trend && h < since ==> Summarizes(trend[h], NotOlder(samples, since), h, 1)
      ensures forall h :: h in trend && h >= since ==>
        Summarizes(trend[h], history, h, (if h in parts then parts[h] else 0) + (if Count(samples, h) > 0 then 1 else 0))
    {
      var recent := NotOlder(samples, since);
      trend := Merge(map h | h in table && h >= since :: table[h], Groups(recent));
      GroupsRepresent(recent);
      forall h: nat ensures h in Groups(recent) <==> Count(recent, h) > 0 {
        HoursCount(recent, h);
      }
      forall h: nat | h >= since
        ensures h in trend <==> Count(history, h) > 0
        ensures h in trend ==>
          Summarizes(trend[h], history, h, (if h in parts then parts[h] else 0) + (if Count(samples, h) > 0 then 1 else 0))
      {
        FullHour(table, parts, folded, samples, history, since, h);
      }
    }
  }

  /** An hour that begins at or after the start: the stored row merged with the hour's raw readings. */
  lemma FullHour(table: map<nat, HourRow>, parts: map<nat, nat>, folded: seq<Reading>, samples: seq<Reading>,
                 history: seq<Reading>, since: int, h: nat)
    requires Represents(table, folded, parts) && SameReadings(history, folded + samples) && h >= since
    ensures var trend := Merge(map k | k in table && k >= since :: table[k], Groups(NotOlder(samples, since)));
      && (h in trend <==> Count(history, h) > 0)
      && (h in trend ==>
            Summarizes(trend[h], history, h, (if h in parts then parts[h] else 0) + (if Count(samples, h) > 0 then 1 else 0)))
  {
    HoursCount(samples, h);
    SameRow(table, samples, since, h);
    GroupsRepresent(samples);
    assert SameIn(history, folded + samples, h, Cpu);
    hide Summarizes, SameReadings, HoursOf, NotOlder, GroupRow, MergeRow, Count, Merge;
    MergeRepresents(table, parts, Groups(samples), OnePart(Groups(samples).Keys), folded, samples);
    var merged := Merge(table, Groups(samples));
    if h in merged {
      SameSummary(merged[h], history, folded + samples, h, MergeParts(parts, OnePart(Groups(samples).Keys))[h]);
    }
  }

  /** From the start on, leaving out what is older changes no hour of the merged table. */
  lemma SameRow(table: map<nat, HourRow>, samples: seq<Reading>, since: int, h: nat)
    requires h >= since && forall k :: k in table ==> table[k].count > 0
    ensures var trend, merged := Merge(map k | k in table && k >= since :: table[k], Groups(NotOlder(samples, since))), Merge(table, Groups(samples));
      (h in trend <==> h in merged) && (h in trend ==> trend[h] == merged[h])
  {
    NothingBefore(samples, since, h, Cpu);
    HoursCount(NotOlder(samples, since), h);
    HoursCount(samples, h);
    hide HoursOf, GroupRow, MergeRow, NotOlder, Total, Greatest;
    if h in Groups(samples) { SameGroup(samples, since, h); }
    hide Count;
  }

  /** The readings of the hours that begin at or after the cutoff. */
  function FromHour(rs: seq<Reading>, cutoff: int): seq<Reading> {
    if rs == [] then []
    else if HourOf(rs[0]) >= cutoff then [rs[0]] + FromHour(rs[1..], cutoff)
    else FromHour(rs[1..], cutoff)
  }

  lemma {:induction false} FromHourIs(rs: seq<Reading>, cutoff: int, hour: nat, m: Metric)
    ensures hour >= cutoff ==> SameIn(FromHour(rs, cutoff), rs, hour, m)
    ensures hour < cutoff ==>
      Count(FromHour(rs, cutoff), hour) == 0 && Total(FromHour(rs, cutoff), hour, m) == 0.0
      && Greatest(FromHour(rs, cutoff), hour, m) == None
  {
    if rs != [] {
      FromHourIs(rs[1..], cutoff, hour, m);
    }
  }

  lemma FromHourRepresents(table: map<nat, HourRow>, rs: seq<Reading>, parts: map<nat, nat>, cutoff: int)
    requires Represents(table, rs, parts)
    ensures Represents(map h | h in table && h >= cutoff :: table[h], FromHour(rs, cutoff), map h | h in parts && h >= cutoff :: parts[h])
  {
    hide MeanIs;
    var left := map h | h in table && h >= cutoff :: table[h];
    forall h: nat ensures h in left <==> Count(FromHour(rs, cutoff), h) > 0 {
      FromHourIs(rs, cutoff, h, Cpu);
    }
    forall h | h in left ensures Summarizes(left[h], FromHour(rs, cutoff), h, parts[h]) {
      forall m: Metric ensures SummarizesIn(left[h], FromHour(rs, cutoff), h, m, parts[h]) {
        FromHourIs(rs, cutoff, h, m);
        assert SummarizesIn(table[h], rs, h, m, parts[h]);
      }
      FromHourIs(rs, cutoff, h, Cpu);
    }
  }

  predicate SameIn(a: seq<Reading>, b: seq<Reading>, hour: nat, m: Metric) {
    Count(a, hour) == Count(b, hour) && Total(a, hour, m) == Total(b, hour, m) && Greatest(a, hour, m) == Greatest(b, hour, m)
  }

  /** Two lists with the same statistics in every hour. */
  ghost predicate SameReadings(a: seq<Reading>, b: seq<Reading>) {
    forall h: nat, m: Metric :: SameIn(a, b, h, m)
  }

  lemma SameSummary(r: HourRow, a: seq<Reading>, b: seq<Reading>, hour: nat, parts: nat)
    requires SameReadings(a, b) && Summarizes(r, b, hour, parts)
    ensures Summarizes(r, a, hour, parts)
  {
    hide MeanIs;
    assert SameIn(a, b, hour, Cpu);
    forall m: Metric ensures SummarizesIn(r, a, hour, m, parts) {
      assert SameIn(a, b, hour, m) && SummarizesIn(r, b, hour, m, parts);
    }
  }

  lemma AppendSame(a: seq<Reading>, b: seq<Reading>, extra: seq<Reading>)
    requires SameReadings(a, b)
    ensures SameReadings(a + extra, b + extra)
  {
    forall h: nat, m: Metric
      ensures SameIn(a + extra, b + extra, h, m)
    {
      assert SameIn(a, b, h, m);
      Appended(a, extra, h, m);
      Appended(b, extra, h, m);
    }
  }

  lemma SplitSame(history: seq<Reading>, folded: seq<Reading>, samples: seq<Reading>, before: int)
    requires SameReadings(history, folded + samples)
    ensures SameReadings(history, (folded + Older(samples, before)) + NotOlder(samples, before))
  {
    var moved, left := Older(samples, before), NotOlder(samples, before);
    forall h: nat, m: Metric
      ensures SameIn(history, (folded + moved) + left, h, m)
    {
      assert SameIn(history, folded + samples, h, m);
      Appended(folded, samples, h, m);
      Appended(folded, moved, h, m);
      Appended(folded + moved, left, h, m);
      Split(samples, before, h, m);
    }
  }

  lemma {:induction false} NothingBefore(rs: seq<Reading>, since: int, hour: nat, m: Metric)
    requires hour >= since
    ensures Count(NotOlder(rs, since), hour) == Count(rs, hour)
    ensures Total(NotOlder(rs, since), hour, m) == Total(rs, hour, m)
    ensures Greatest(NotOlder(rs, since), hour, m) == Greatest(rs, hour, m)
  {
    if rs != [] {
      NothingBefore(rs[1..], since, hour, m);
    }
  }

  lemma SameGroup(rs: seq<Reading>, since: int, hour: nat)
    requires hour >= since && Count(rs, hour) > 0
    ensures Count(NotOlder(rs, since), hour) > 0
    ensures GroupRow(NotOlder(rs, since), hour) == GroupRow(rs, hour)
  {
    hide Total, Greatest, Count, NotOlder, Column;
    NothingBefore(rs, since, hour, Cpu);
    NothingBefore(rs, since, hour, Mem);
    NothingBefore(rs, since, hour, Disk);
    NothingBefore(rs, since, hour, DiskRead);
    NothingBefore(rs, since, hour, DiskWrite);
  }

  /** What a cutoff keeps and what it takes, together all rows: an older row never stays and no other one goes. */
  lemma {:induction false} CutMeans(rows: seq<Reading>, before: int)
    ensures forall r :: r in NotOlder(rows, before) ==> r.ts >= before
    ensures forall r :: r in Older(rows, before) ==> r.ts < before
    ensures multiset(rows) == multiset(Older(rows, before)) + multiset(NotOlder(rows, before))
  {
    if rows != [] {
      CutMeans(rows[1..], before);
      assert rows == [rows[0]] + rows[1..];
    }
  }

  /** An hour with a single reading is that reading, column by column. */
  lemma OneReading(r: Reading)
    ensures Groups([r]).Keys == {HourOf(r)}
    ensures Groups([r])[HourOf(r)] ==
      HourRow(Stat(r.cpu, r.cpu), Stat(r.mem, r.mem), Stat(r.disk, r.disk),
              Stat(r.diskRead as real, r.diskRead as real), Stat(r.diskWrite as real, r.diskWrite as real), 1)
  {
    assert [r][1..] == [] && [r][0] == r && r in [r];
    forall m: Metric ensures Total([r], HourOf(r), m) == Value(r, m) && Greatest([r], HourOf(r), m) == Some(Value(r, m)) { }
    assert Count([r], HourOf(r)) == 1;
    hide Count, Total, Greatest;
    forall m: Metric ensures GroupStat([r], HourOf(r), m) == Stat(Value(r, m), Value(r, m)) { }
  }

  /** The disk traffic columns only ever hold whole numbers, however often an hour is folded; percentages are not rounded. */
  lemma IntegerColumns(rs: seq<Reading>, hour: nat, a: HourRow, b: HourRow)
    requires Count(rs, hour) > 0 && a.count + b.count > 0
    ensures IsWhole(GroupRow(rs, hour).diskRead.avg) && IsWhole(GroupRow(rs, hour).diskWrite.avg)
    ensures IsWhole(MergeRow(a, b).diskRead.avg) && IsWhole(MergeRow(a, b).diskWrite.avg)
    ensures GroupRow(rs, hour).cpu.avg == Total(rs, hour, Cpu) / Count(rs, hour) as real
    ensures GroupRow(rs, hour).mem.avg == Total(rs, hour, Mem) / Count(rs, hour) as real
    ensures GroupRow(rs, hour).disk.avg == Total(rs, hour, Disk) / Count(rs, hour) as real
  {
    hide Total, Greatest, Count;
    FloorIsWhole();
  }

  predicate IsWhole(x: real) {
    x == x.Floor as real
  }

  lemma FloorIsWhole()
    ensures forall x: real :: IsWhole(Column(DiskRead, x)) && IsWhole(Column(DiskWrite, x))
  {
  }
}
