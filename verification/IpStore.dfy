/**
 Per-address traffic history (internal/monitor/store.go): raw samples fold into
 hours, hours fold into days, and an hourly prune keeps only the busiest
 addresses. Every reading is compared with the plain list of rounds inserted.
 */
module IpStore {
  import opened Tables
  import opened Ranking
  import opened IpKey

  datatype Tiers = Tiers(samples: seq<Row>, hourly: seq<Row>, daily: seq<Row>)

  const EMPTY: Tiers := Tiers([], [], [])

  /** The sum every window reading forms over the three tables. */
  function SumAll(t: Tiers, d: Direction, sel: Selector): int {
    Sum(t.samples, d, sel) + Sum(t.hourly, d, sel) + Sum(t.daily, d, sel)
  }

  /** WHERE ts >= since, for one accounting key. */
  function Since(of: string, since: int): Selector {
    (ts: nat, key: string) => key == of && ts >= since
  }

  // ------------------------------------------------------------ table effects

  function AfterRound(t: Tiers, rows: seq<Row>): Tiers {
    t.(samples := UpsertAll(t.samples, rows))
  }

  function AfterFoldHours(t: Tiers, before: int): Tiers {
    t.(hourly := Fold(t.hourly, t.samples, before, HOUR), samples := NotOlder(t.samples, before))
  }

  function AfterFoldDays(t: Tiers, before: int): Tiers {
    t.(daily := Fold(t.daily, t.hourly, before, DAY), hourly := NotOlder(t.hourly, before))
  }

  // ------------------------------------------------------------ pruning

  /** The rows of the addresses in kept. */
  function Kept(rows: seq<Row>, kept: set<string>): seq<Row> {
    if rows == [] then []
    else if Address(rows[0].key) in kept then [rows[0]] + Kept(rows[1..], kept)
    else Kept(rows[1..], kept)
  }

  function KeptTiers(t: Tiers, kept: set<string>): Tiers {
    Tiers(Kept(t.samples, kept), Kept(t.hourly, kept), Kept(t.daily, kept))
  }

  function OfAddress(address: string): Selector {
    (ts: nat, key: string) => Address(key) == address
  }

  function AddressesOf(rows: seq<Row>): set<string> {
    set r | r in rows :: Address(r.key)
  }

  function Addresses(t: Tiers): set<string> {
    AddressesOf(t.samples) + AddressesOf(t.hourly) + AddressesOf(t.daily)
  }

  /** SUM(in_bytes + out_bytes) per address, over every tier. */
  function Weigh(t: Tiers): Weights {
    map a | a in Addresses(t) :: SumAll(t, Both, OfAddress(a))
  }

  function Busiest(t: Tiers, keep: nat): set<string> {
    Survivors(Weigh(t), keep)
  }

  /** One DELETE: the ranking is taken over the tables as they stand now. */
  function PruneTier(t: Tiers, tier: nat, keep: nat): Tiers {
    var kept := Busiest(t, keep);
    if tier == 0 then t.(samples := Kept(t.samples, kept))
    else if tier == 1 then t.(hourly := Kept(t.hourly, kept))
    else t.(daily := Kept(t.daily, kept))
  }

  function PruneTiers(t: Tiers, tiers: nat, keep: nat): Tiers {
    if tiers == 0 then t else PruneTier(PruneTiers(t, tiers - 1, keep), tiers - 1, keep)
  }

  function AfterPrune(t: Tiers, keep: int): Tiers {
    if keep <= 0 then t else PruneTiers(t, 3, keep)
  }

  ghost predicate WellFormed(t: Tiers) {
    && UniqueKeys(t.samples) && UniqueKeys(t.hourly) && UniqueKeys(t.daily)
    && NonNegativeRows(t.samples) && NonNegativeRows(t.hourly) && NonNegativeRows(t.daily)
  }

  ghost predicate NonNegativeTiers(t: Tiers) {
    NonNegativeRows(t.samples) && NonNegativeRows(t.hourly) && NonNegativeRows(t.daily)
  }

  function Restricted(sel: Selector, kept: set<string>): Selector {
    (ts: nat, key: string) => sel(ts, key) && Address(key) in kept
  }

  lemma {:induction false} SumKept(rows: seq<Row>, kept: set<string>, d: Direction, sel: Selector)
    ensures Sum(Kept(rows, kept), d, sel) == Sum(rows, d, Restricted(sel, kept))
  {
    if rows != [] {
      SumKept(rows[1..], kept, d, sel);
    }
  }

  lemma {:induction false} SumWithin(rows: seq<Row>, kept: set<string>, address: string)
    requires NonNegativeRows(rows)
    ensures 0 <= Sum(rows, Both, Restricted(OfAddress(address), kept)) <= Sum(rows, Both, OfAddress(address))
    ensures address in kept ==>
      Sum(rows, Both, Restricted(OfAddress(address), kept)) == Sum(rows, Both, OfAddress(address))
  {
    if rows != [] {
      assert forall i :: 0 <= i < |rows[1..]| ==> rows[1..][i] == rows[i + 1];
      SumWithin(rows[1..], kept, address);
    }
  }

  lemma {:induction false} KeptRows(rows: seq<Row>, kept: set<string>)
    ensures forall r :: r in Kept(rows, kept) <==> r in rows && Address(r.key) in kept
  {
    if rows != [] {
      KeptRows(rows[1..], kept);
      assert rows == [rows[0]] + rows[1..];
    }
  }

  lemma NonNegativeIn(rows: seq<Row>)
    ensures NonNegativeRows(rows) <==> forall r :: r in rows ==> r.bytes.NonNegative()
  {
  }

  lemma {:induction false} KeptTwice(rows: seq<Row>, kept: set<string>)
    ensures Kept(Kept(rows, kept), kept) == Kept(rows, kept)
  {
    if rows != [] {
      KeptTwice(rows[1..], kept);
    }
  }

  /** Deleting losers from any one table leaves the ranking's survivors as they were. */
  lemma PruneTierStable(t: Tiers, tier: nat, keep: nat)
    requires NonNegativeTiers(t)
    ensures NonNegativeTiers(PruneTier(t, tier, keep))
    ensures Busiest(PruneTier(t, tier, keep), keep) == Busiest(t, keep)
  {
    var kept := Busiest(t, keep);
    var t' := PruneTier(t, tier, keep);
    PruneTierAddresses(t, tier, keep);
    forall a | a in Addresses(t')
      ensures Weigh(t')[a] <= Weigh(t)[a]
      ensures a in kept ==> Weigh(t')[a] == Weigh(t)[a]
    {
      TierWeight(t.samples, kept, a);
      TierWeight(t.hourly, kept, a);
      TierWeight(t.daily, kept, a);
    }
    SurvivorsStable(Weigh(t), Weigh(t'), keep);
  }

  lemma TierWeight(rows: seq<Row>, kept: set<string>, a: string)
    requires NonNegativeRows(rows)
    ensures Sum(Kept(rows, kept), Both, OfAddress(a)) <= Sum(rows, Both, OfAddress(a))
    ensures a in kept ==> Sum(Kept(rows, kept), Both, OfAddress(a)) == Sum(rows, Both, OfAddress(a))
  {
    SumKept(rows, kept, Both, OfAddress(a));
    SumWithin(rows, kept, a);
  }

  lemma PruneTierAddresses(t: Tiers, tier: nat, keep: nat)
    requires NonNegativeTiers(t)
    ensures NonNegativeTiers(PruneTier(t, tier, keep))
    ensures Busiest(t, keep) <= Addresses(PruneTier(t, tier, keep)) <= Addresses(t)
  {
    var kept := Busiest(t, keep);
    var rows := if tier == 0 then t.samples else if tier == 1 then t.hourly else t.daily;
    KeptRows(rows, kept);
    NonNegativeIn(rows);
    NonNegativeIn(Kept(rows, kept));
    assert AddressesOf(Kept(rows, kept)) == AddressesOf(rows) * kept;
  }

  lemma {:induction false} PruneTiersAre(t: Tiers, tiers: nat, keep: nat)
    requires NonNegativeTiers(t) && tiers <= 3
    ensures var kept := Busiest(t, keep); var p := PruneTiers(t, tiers, keep);
      && NonNegativeTiers(p) && Busiest(p, keep) == kept
      && p.samples == (if tiers >= 1 then Kept(t.samples, kept) else t.samples)
      && p.hourly == (if tiers >= 2 then Kept(t.hourly, kept) else t.hourly)
      && p.daily == (if tiers >= 3 then Kept(t.daily, kept) else t.daily)
  {
    if tiers > 0 {
      PruneTiersAre(t, tiers - 1, keep);
      PruneTierStable(PruneTiers(t, tiers - 1, keep), tiers - 1, keep);
    }
  }

  /**
   Pruning keeps each address whole or drops it whole from all three tables, keeps
   at most keep addresses (exactly keep if it drops any), and drops no address that
   outweighs a kept one, although the ranking is recomputed after each delete.
   */
  lemma PruneKeepsWholeAddresses(t: Tiers, keep: nat)
    requires NonNegativeTiers(t) && keep > 0
    ensures AfterPrune(t, keep) == KeptTiers(t, Busiest(t, keep))
    ensures |Busiest(t, keep)| <= keep
    ensures Busiest(t, keep) != Addresses(t) ==> |Busiest(t, keep)| == keep
    ensures forall a, b :: a in Busiest(t, keep) && b in Addresses(t) - Busiest(t, keep) ==>
      SumAll(t, Both, OfAddress(a)) >= SumAll(t, Both, OfAddress(b))
  {
    PruneTiersAre(t, 3, keep);
    SurvivorCount(Weigh(t), keep);
    assert Weigh(t).Keys == Addresses(t);
    forall a, b | a in Busiest(t, keep) && b in Addresses(t) - Busiest(t, keep)
      ensures SumAll(t, Both, OfAddress(a)) >= SumAll(t, Both, OfAddress(b))
    {
      SurvivorsBeatTheRest(Weigh(t), keep, a, b);
    }
  }

  // ------------------------------------------------------------ runs

  datatype Op =
    | Round(rows: seq<Row>)
    | FoldHours(before: int)
    | FoldDays(before: int)
    | Prune(keep: int)
    | Clear

  /** The tables, and the plain list of rows inserted for addresses never pruned or cleared since. */
  datatype Log = Log(tiers: Tiers, history: seq<Row>)

  function Step(l: Log, op: Op): Log {
    match op
    case Round(rows) => Log(AfterRound(l.tiers, rows), l.history + rows)
    case FoldHours(before) => l.(tiers := AfterFoldHours(l.tiers, before))
    case FoldDays(before) => l.(tiers := AfterFoldDays(l.tiers, before))
    case Prune(keep) =>
      Log(AfterPrune(l.tiers, keep), if keep <= 0 then l.history else Kept(l.history, Busiest(l.tiers, keep)))
    case Clear => Log(EMPTY, [])
  }

  function Run(ops: seq<Op>): Log {
    if ops == [] then Log(EMPTY, []) else Step(Run(ops[..|ops| - 1]), ops[|ops| - 1])
  }

  /** sel never splits a bucket one of these folds writes. */
  ghost predicate Respects(sel: Selector, ops: seq<Op>) {
    forall op :: op in ops ==> match op
      case FoldHours(before) => Closed(sel, HOUR, before)
      case FoldDays(before) => Closed(sel, DAY, before)
      case _ => true
  }

  ghost predicate NonNegativeOps(ops: seq<Op>) {
    forall op :: op in ops && op.Round? ==> NonNegativeRows(op.rows)
  }

  lemma FoldShape(dst: seq<Row>, src: seq<Row>, before: int, width: nat)
    requires width > 0 && UniqueKeys(dst) && UniqueKeys(src) && NonNegativeRows(dst) && NonNegativeRows(src)
    ensures UniqueKeys(Fold(dst, src, before, width)) && NonNegativeRows(Fold(dst, src, before, width))
    ensures UniqueKeys(NotOlder(src, before)) && NonNegativeRows(NotOlder(src, before))
  {
    OlderShape(src, before);
    var moved := Bucketed(Older(src, before), width);
    BucketedAt(Older(src, before), width);
    UpsertAllShape([], moved);
    UpsertAllShape(dst, GroupBy(Older(src, before), width));
  }

  lemma {:induction false} KeptUnique(rows: seq<Row>, kept: set<string>)
    requires UniqueKeys(rows)
    ensures UniqueKeys(Kept(rows, kept))
  {
    if rows != [] {
      assert forall i :: 0 <= i < |rows[1..]| ==> rows[1..][i] == rows[i + 1];
      KeptUnique(rows[1..], kept);
      if Address(rows[0].key) in kept {
        KeptRows(rows[1..], kept);
        var u, tail := Kept(rows, kept), Kept(rows[1..], kept);
        forall j | 0 < j < |u| ensures u[0].ts != u[j].ts || u[0].key != u[j].key {
          assert u[j] == tail[j - 1] && tail[j - 1] in rows[1..];
        }
      }
    }
  }

  /** The primary keys hold and no stored byte count is negative, after any run. */
  lemma {:induction false} RunWellFormed(ops: seq<Op>)
    requires NonNegativeOps(ops)
    ensures WellFormed(Run(ops).tiers)
  {
    if ops != [] {
      var l, op := Run(ops[..|ops| - 1]), ops[|ops| - 1];
      RunWellFormed(ops[..|ops| - 1]);
      match op
      case Round(rows) => UpsertAllShape(l.tiers.samples, rows);
      case FoldHours(before) => FoldShape(l.tiers.hourly, l.tiers.samples, before, HOUR);
      case FoldDays(before) => FoldShape(l.tiers.daily, l.tiers.hourly, before, DAY);
      case Prune(keep) =>
        if keep > 0 {
          var kept := Busiest(l.tiers, keep);
          PruneTiersAre(l.tiers, 3, keep);
          KeptUnique(l.tiers.samples, kept);
          KeptUnique(l.tiers.hourly, kept);
          KeptUnique(l.tiers.daily, kept);
        }
      case Clear =>
    }
  }

  /** Pruning only restricts a reading to the surviving addresses. */
  lemma PruneConserves(l: Log, keep: nat, d: Direction, sel: Selector)
    requires NonNegativeTiers(l.tiers) && keep > 0
    requires var narrow := Restricted(sel, Busiest(l.tiers, keep));
      SumAll(l.tiers, d, narrow) == Sum(l.history, d, narrow)
    ensures SumAll(Step(l, Prune(keep)).tiers, d, sel) == Sum(Step(l, Prune(keep)).history, d, sel)
  {
    hide Sum, Kept, Busiest, PruneTiers, Restricted, NonNegativeTiers;
    var kept := Busiest(l.tiers, keep);
    PruneTiersAre(l.tiers, 3, keep);
    SumKept(l.tiers.samples, kept, d, sel);
    SumKept(l.tiers.hourly, kept, d, sel);
    SumKept(l.tiers.daily, kept, d, sel);
    SumKept(l.history, kept, d, sel);
  }

  lemma StepConserves(l: Log, op: Op, d: Direction, sel: Selector)
    requires SumAll(l.tiers, d, sel) == Sum(l.history, d, sel)
    requires Respects(sel, [op]) && (op.Prune? ==> op.keep <= 0)
    ensures SumAll(Step(l, op).tiers, d, sel) == Sum(Step(l, op).history, d, sel)
  {
    assert op in [op];
    match op
    case Round(rows) =>
      SumUpsertAll(l.tiers.samples, rows, d, sel);
      SumAppend(l.history, rows, d, sel);
    case FoldHours(cutoff) => FoldConserves(l.tiers.hourly, l.tiers.samples, cutoff, HOUR, d, sel);
    case FoldDays(cutoff) => FoldConserves(l.tiers.daily, l.tiers.hourly, cutoff, DAY, d, sel);
    case Prune(_) =>
    case Clear =>
  }

  /**
   Conservation: after any run, and for any reading that never splits a bucket the
   run's folds wrote, the three tables add up to the plain list of rows inserted.
   */
  lemma {:induction false} RunConserves(ops: seq<Op>, d: Direction, sel: Selector)
    requires Respects(sel, ops) && NonNegativeOps(ops)
    ensures SumAll(Run(ops).tiers, d, sel) == Sum(Run(ops).history, d, sel)
    decreases |ops|
  {
    if ops != [] {
      hide SumAll, Sum, Step, Closed;
      var before := ops[..|ops| - 1];
      var l, op := Run(before), ops[|ops| - 1];
      assert op in ops && forall o :: o in before ==> o in ops;
      if op.Prune? && op.keep > 0 {
        RunWellFormed(before);
        var kept := Busiest(l.tiers, op.keep);
        NarrowRespects(sel, kept, before);
        RunConserves(before, d, Restricted(sel, kept));
        PruneConserves(l, op.keep, d, sel);
      } else {
        RunConserves(before, d, sel);
        StepConserves(l, op, d, sel);
      }
    }
  }

  lemma NarrowRespects(sel: Selector, kept: set<string>, ops: seq<Op>)
    requires Respects(sel, ops)
    ensures Respects(Restricted(sel, kept), ops)
  {
    forall op | op in ops
      ensures match op
        case FoldHours(before) => Closed(Restricted(sel, kept), HOUR, before)
        case FoldDays(before) => Closed(Restricted(sel, kept), DAY, before)
        case _ => true
    {
      match op
      case FoldHours(before) => assert Closed(sel, HOUR, before);
      case FoldDays(before) => assert Closed(sel, DAY, before);
      case _ =>
    }
  }

  // ------------------------------------------------------------ windows

  lemma BucketBounds(ts: nat, width: nat)
    requires width == HOUR || width == DAY
    ensures Bucket(ts, width) <= ts < Bucket(ts, width) + width
  {
  }

  /** No aligned boundary falls inside a bucket. */
  lemma AlignedBoundary(ts: nat, since: int, width: nat)
    requires width == HOUR || width == DAY
    requires since % width == 0
    ensures Bucket(ts, width) >= since <==> ts >= since
  {
  }

  lemma DayWindowClosed(of: string, since: int, before: int)
    requires since % DAY == 0
    ensures Closed(Since(of, since), DAY, before) && Closed(Since(of, since), HOUR, before)
  {
    hide Bucket;
    assert since % HOUR == 0;
    forall ts: nat, key: string | ts < before
      ensures Since(of, since)(Bucket(ts, DAY), key) == Since(of, since)(ts, key)
      ensures Since(of, since)(Bucket(ts, HOUR), key) == Since(of, since)(ts, key)
    {
      AlignedBoundary(ts, since, DAY);
      AlignedBoundary(ts, since, HOUR);
    }
  }

  lemma HourWindowClosed(of: string, since: int, before: int)
    requires since % HOUR == 0
    ensures Closed(Since(of, since), HOUR, before)
    ensures before <= since ==> Closed(Since(of, since), DAY, before)
  {
    forall ts: nat, key: string | ts < before
      ensures Since(of, since)(Bucket(ts, HOUR), key) == Since(of, since)(ts, key)
    {
      AlignedBoundary(ts, since, HOUR);
    }
  }

  /**
   A window that starts on a GMT day reads exactly what was inserted, whatever
   cutoffs the folds were called with.
   */
  lemma DayAlignedWindow(ops: seq<Op>, d: Direction, of: string, since: int)
    requires NonNegativeOps(ops) && since % DAY == 0
    ensures SumAll(Run(ops).tiers, d, Since(of, since)) == Sum(Run(ops).history, d, Since(of, since))
  {
    forall op | op in ops
      ensures match op
        case FoldHours(before) => Closed(Since(of, since), HOUR, before)
        case FoldDays(before) => Closed(Since(of, since), DAY, before)
        case _ => true
    {
      match op
      case FoldHours(before) => DayWindowClosed(of, since, before);
      case FoldDays(before) => DayWindowClosed(of, since, before);
      case _ =>
    }
    RunConserves(ops, d, Since(of, since));
  }

  /** A window that starts on an hour is exact as long as no day fold reached past its start. */
  lemma HourAlignedWindow(ops: seq<Op>, d: Direction, of: string, since: int)
    requires NonNegativeOps(ops) && since % HOUR == 0
    requires forall op :: op in ops && op.FoldDays? ==> op.before <= since
    ensures SumAll(Run(ops).tiers, d, Since(of, since)) == Sum(Run(ops).history, d, Since(of, since))
  {
    forall op | op in ops
      ensures match op
        case FoldHours(before) => Closed(Since(of, since), HOUR, before)
        case FoldDays(before) => Closed(Since(of, since), DAY, before)
        case _ => true
    {
      match op
      case FoldHours(before) => HourWindowClosed(of, since, before);
      case FoldDays(before) => HourWindowClosed(of, since, before);
      case _ =>
    }
    RunConserves(ops, d, Since(of, since));
  }

  const IP_HOURLY_RETENTION: nat := 7 * DAY

  /** Every day fold of the run used a cutoff maintenance would use at some time up to now. */
  ghost predicate Maintained(ops: seq<Op>, now: nat) {
    forall op :: op in ops && op.FoldDays? ==> FoldedAtSomeTime(op.before, now)
  }

  ghost predicate FoldedAtSomeTime(before: int, now: nat) {
    exists n: nat :: n <= now && before == Bucket(n, DAY) - IP_HOURLY_RETENTION
  }

  lemma BucketsGrow(earlier: nat, later: nat)
    requires earlier <= later
    ensures Bucket(earlier, DAY) <= Bucket(later, DAY)
  {
    assert earlier / DAY <= later / DAY;
  }

  /**
   Under the cutoffs maintenance uses, a quota cycle reads exactly for its first seven
   days whatever its reset hour, and for as long as it lasts if that hour is 0.
   */
  lemma MaintainedCycleWindow(ops: seq<Op>, now: nat, d: Direction, of: string, since: int)
    requires NonNegativeOps(ops) && Maintained(ops, now) && since % HOUR == 0
    requires since % DAY == 0 || since >= Bucket(now, DAY) - IP_HOURLY_RETENTION
    ensures SumAll(Run(ops).tiers, d, Since(of, since)) == Sum(Run(ops).history, d, Since(of, since))
  {
    hide SumAll, Sum, Run, Since, Bucket;
    if since % DAY == 0 {
      DayAlignedWindow(ops, d, of, since);
    } else {
      forall op | op in ops && op.FoldDays? ensures op.before <= since {
        assert FoldedAtSomeTime(op.before, now);
        var n: nat :| n <= now && op.before == Bucket(n, DAY) - IP_HOURLY_RETENTION;
        BucketsGrow(n, now);
      }
      HourAlignedWindow(ops, d, of, since);
    }
  }

  /** The hours of a window's opening day that lie inside it. */
  function OpeningDay(of: string, since: int): Selector {
    (ts: nat, key: string) => key == of && ts >= since && Bucket(ts, DAY) < since
  }

  lemma {:induction false} BucketedLoss(rows: seq<Row>, d: Direction, of: string, since: int)
    ensures Sum(Bucketed(rows, DAY), d, Since(of, since))
         == Sum(rows, d, Since(of, since)) - Sum(rows, d, OpeningDay(of, since))
  {
    if rows != [] {
      BucketedLoss(rows[1..], d, of, since);
      BucketBounds(rows[0].ts, DAY);
    }
  }

  /**
   One day fold, for any window start: the window loses exactly the folded hours of
   its opening day. A caller can tell from the hourly table whether there are any.
   */
  lemma FoldDaysExactly(t: Tiers, before: int, d: Direction, of: string, since: int)
    ensures SumAll(AfterFoldDays(t, before), d, Since(of, since))
         == SumAll(t, d, Since(of, since)) - Sum(Older(t.hourly, before), d, OpeningDay(of, since))
    ensures SumAll(AfterFoldDays(t, before), d, Since(of, since)) == SumAll(t, d, Since(of, since))
       <==> Sum(Older(t.hourly, before), d, OpeningDay(of, since)) == 0
  {
    SumFold(t.daily, t.hourly, before, DAY, d, Since(of, since));
    BucketedLoss(Older(t.hourly, before), d, of, since);
    SumSplit(t.hourly, before, d, Since(of, since));
  }

  /** A quota cycle that resets at 05:00 forgets its first morning once that day is folded. */
  lemma ResetHourLosesOpeningDay(of: string)
    ensures var t := Tiers([], [Row(6 * HOUR, of, Bytes(7, 0))], []);
      && SumAll(t, In, Since(of, 5 * HOUR)) == 7
      && SumAll(AfterFoldDays(t, DAY), In, Since(of, 5 * HOUR)) == 0
  {
    var row := Row(6 * HOUR, of, Bytes(7, 0));
    var t := Tiers([], [row], []);
    assert Older([row], DAY) == [row] + Older([], DAY) == [row];
    var sel := Since(of, 5 * HOUR);
    assert [row][1..] == [];
    assert Sum([row], In, sel) == Pick(row, In, sel) + Sum([], In, sel) == 7;
    assert Bucket(row.ts, DAY) == 0;
    var opening := OpeningDay(of, 5 * HOUR);
    assert Sum([row], In, opening) == Pick(row, In, opening) + Sum([], In, opening) == 7;
    FoldDaysExactly(t, DAY, In, of, 5 * HOUR);
  }

  /** One column of the daily series that starts at since. */
  function DailyPoint(of: string, bucket: nat, since: int): Selector {
    (ts: nat, key: string) => key == of && Bucket(ts, DAY) == bucket && ts >= since
  }

  lemma BucketTwice(ts: nat)
    ensures Bucket(Bucket(ts, HOUR), DAY) == Bucket(ts, DAY)
    ensures Bucket(Bucket(ts, DAY), DAY) == Bucket(ts, DAY)
    ensures Bucket(ts, DAY) <= Bucket(ts, HOUR) <= ts
  {
    var hours := ts / HOUR;
    assert ts / DAY == hours / 24;
    assert hours * HOUR / DAY == hours / 24;
  }

  /** A column that begins inside the series is closed under both folds, wherever the series starts. */
  lemma DailyPointClosed(of: string, bucket: nat, since: int, before: int)
    requires bucket >= since
    ensures Closed(DailyPoint(of, bucket, since), HOUR, before)
    ensures Closed(DailyPoint(of, bucket, since), DAY, before)
  {
    forall ts: nat, key: string | ts < before
      ensures DailyPoint(of, bucket, since)(Bucket(ts, HOUR), key) == DailyPoint(of, bucket, since)(ts, key)
      ensures DailyPoint(of, bucket, since)(Bucket(ts, DAY), key) == DailyPoint(of, bucket, since)(ts, key)
    {
      hide Bucket;
      BucketTwice(ts);
    }
  }

  /** Every column that begins inside the series is the sum of that day's rounds, wherever the series starts. */
  lemma DailySeriesExact(ops: seq<Op>, d: Direction, of: string, bucket: nat, since: int)
    requires NonNegativeOps(ops) && bucket >= since
    ensures SumAll(Run(ops).tiers, d, DailyPoint(of, bucket, since))
         == Sum(Run(ops).history, d, DailyPoint(of, bucket, since))
  {
    hide SumAll, Sum, Closed, DailyPoint;
    var sel := DailyPoint(of, bucket, since);
    forall op | op in ops
      ensures match op
        case FoldHours(before) => Closed(sel, HOUR, before)
        case FoldDays(before) => Closed(sel, DAY, before)
        case _ => true
    {
      match op
      case FoldHours(before) => DailyPointClosed(of, bucket, since, before);
      case FoldDays(before) => DailyPointClosed(of, bucket, since, before);
      case _ =>
    }
    RunConserves(ops, d, sel);
  }

  /** The rows of a column's day whose own hour or day begins before the series does. */
  function CutOff(of: string, bucket: nat, since: int, width: nat): Selector
    requires width > 0
  {
    (ts: nat, key: string) => key == of && Bucket(ts, DAY) == bucket && ts >= since && Bucket(ts, width) < since
  }

  lemma {:induction false} BucketedColumn(rows: seq<Row>, d: Direction, of: string, bucket: nat, since: int, width: nat)
    requires width == HOUR || width == DAY
    ensures Sum(Bucketed(rows, width), d, DailyPoint(of, bucket, since))
         == Sum(rows, d, DailyPoint(of, bucket, since)) - Sum(rows, d, CutOff(of, bucket, since, width))
  {
    if rows != [] {
      BucketedColumn(rows[1..], d, of, bucket, since, width);
      ColumnRow(rows[0], of, bucket, since, width, d);
      hide Bucket, DailyPoint, CutOff, Pick;
    }
  }

  lemma ColumnRow(row: Row, of: string, bucket: nat, since: int, width: nat, d: Direction)
    requires width == HOUR || width == DAY
    ensures Pick(row.(ts := Bucket(row.ts, width)), d, DailyPoint(of, bucket, since))
         == Pick(row, d, DailyPoint(of, bucket, since)) - Pick(row, d, CutOff(of, bucket, since, width))
  {
    hide Bucket;
    BucketTwice(row.ts);
  }

  /**
   What the folds take out of any column, for any start: the folded rows whose hour, or
   whose day, begins before the series. Only the opening column has such rows.
   */
  lemma OpeningColumnLoses(t: Tiers, before: int, d: Direction, of: string, bucket: nat, since: int)
    ensures SumAll(AfterFoldDays(t, before), d, DailyPoint(of, bucket, since))
         == SumAll(t, d, DailyPoint(of, bucket, since)) - Sum(Older(t.hourly, before), d, CutOff(of, bucket, since, DAY))
    ensures SumAll(AfterFoldHours(t, before), d, DailyPoint(of, bucket, since))
         == SumAll(t, d, DailyPoint(of, bucket, since)) - Sum(Older(t.samples, before), d, CutOff(of, bucket, since, HOUR))
    ensures bucket >= since ==>
      Sum(Older(t.hourly, before), d, CutOff(of, bucket, since, DAY)) == 0
      && Sum(Older(t.samples, before), d, CutOff(of, bucket, since, HOUR)) == 0
  {
    var sel := DailyPoint(of, bucket, since);
    hide DailyPoint, CutOff;
    SumFold(t.daily, t.hourly, before, DAY, d, sel);
    BucketedColumn(Older(t.hourly, before), d, of, bucket, since, DAY);
    SumSplit(t.hourly, before, d, sel);
    SumFold(t.hourly, t.samples, before, HOUR, d, sel);
    BucketedColumn(Older(t.samples, before), d, of, bucket, since, HOUR);
    SumSplit(t.samples, before, d, sel);
    if bucket >= since {
      NothingCutOff(Older(t.hourly, before), d, of, bucket, since, DAY);
      NothingCutOff(Older(t.samples, before), d, of, bucket, since, HOUR);
    }
  }

  lemma {:induction false} NothingCutOff(rows: seq<Row>, d: Direction, of: string, bucket: nat, since: int, width: nat)
    requires (width == HOUR || width == DAY) && bucket >= since
    ensures Sum(rows, d, CutOff(of, bucket, since, width)) == 0
  {
    if rows != [] {
      NothingCutOff(rows[1..], d, of, bucket, since, width);
      NotCutOff(rows[0].ts, rows[0].key, of, bucket, since, width);
    }
  }

  lemma NotCutOff(ts: nat, key: string, of: string, bucket: nat, since: int, width: nat)
    requires (width == HOUR || width == DAY) && bucket >= since
    ensures !CutOff(of, bucket, since, width)(ts, key)
  {
    BucketTwice(ts);
    assert Bucket(ts, width) >= Bucket(ts, DAY);
  }

  // ------------------------------------------------------------ the hourly view

  /** One column of the hourly series that starts at since. */
  function HourlyPoint(of: string, hour: nat, since: int): Selector {
    (ts: nat, key: string) => key == of && Bucket(ts, HOUR) == hour && ts >= since
  }

  /** The hourly view leaves the day rows out. */
  function SumHours(t: Tiers, d: Direction, sel: Selector): int {
    Sum(t.samples, d, sel) + Sum(t.hourly, d, sel)
  }

  lemma {:induction false} BucketedHours(rows: seq<Row>, d: Direction, of: string, hour: nat, since: int)
    ensures Sum(Bucketed(rows, HOUR), d, HourlyPoint(of, hour, since))
         == if hour >= since then Sum(rows, d, HourlyPoint(of, hour, since)) else 0
  {
    if rows != [] {
      BucketedHours(rows[1..], d, of, hour, since);
      assert Bucket(Bucket(rows[0].ts, HOUR), HOUR) == Bucket(rows[0].ts, HOUR) <= rows[0].ts;
    }
  }

  /**
   What the folds take out of an hour's column, for any start: an hour fold nothing,
   unless the series starts inside that hour, and a day fold exactly the hour's folded row.
   */
  lemma HourlyColumnLoses(t: Tiers, before: int, d: Direction, of: string, hour: nat, since: int)
    ensures var sel := HourlyPoint(of, hour, since);
      SumHours(AfterFoldHours(t, before), d, sel) ==
        SumHours(t, d, sel) - if hour >= since then 0 else Sum(Older(t.samples, before), d, sel)
    ensures var sel := HourlyPoint(of, hour, since);
      SumHours(AfterFoldDays(t, before), d, sel) == SumHours(t, d, sel) - Sum(Older(t.hourly, before), d, sel)
  {
    var sel := HourlyPoint(of, hour, since);
    hide HourlyPoint;
    SumFold(t.hourly, t.samples, before, HOUR, d, sel);
    BucketedHours(Older(t.samples, before), d, of, hour, since);
    SumSplit(t.samples, before, d, sel);
    SumSplit(t.hourly, before, d, sel);
  }

  /** A column behind every cutoff the day folds used cannot tell a row from the bucket it folds into. */
  lemma HourlyPointClosed(of: string, hour: nat, since: int, before: int)
    requires hour >= since
    ensures Closed(HourlyPoint(of, hour, since), HOUR, before)
    ensures before <= hour ==> Closed(HourlyPoint(of, hour, since), DAY, before)
  {
    forall ts: nat, key: string | ts < before
      ensures HourlyPoint(of, hour, since)(Bucket(ts, HOUR), key) == HourlyPoint(of, hour, since)(ts, key)
      ensures before <= hour ==> HourlyPoint(of, hour, since)(Bucket(ts, DAY), key) == HourlyPoint(of, hour, since)(ts, key)
    {
      hide Bucket;
      HourTwice(ts);
      HourTwice(Bucket(ts, DAY));
      BucketTwice(ts);
    }
  }

  lemma HourTwice(ts: nat)
    ensures Bucket(Bucket(ts, HOUR), HOUR) == Bucket(ts, HOUR) <= ts
  {
  }

  /** Selects nothing older than limit. */
  ghost predicate NothingOlder(sel: Selector, limit: int) {
    forall ts: nat, key: string :: ts < limit ==> !sel(ts, key)
  }

  lemma {:induction false} OlderMissed(rows: seq<Row>, before: int, width: nat, d: Direction, sel: Selector, limit: int)
    requires width > 0 && NothingOlder(sel, limit) && before <= limit
    ensures Sum(Bucketed(Older(rows, before), width), d, sel) == 0
  {
    if rows != [] {
      OlderMissed(rows[1..], before, width, d, sel, limit);
      if rows[0].ts < before { assert Bucket(rows[0].ts, width) <= rows[0].ts; }
    }
  }

  /** The day rows hold nothing the day folds' cutoffs have not passed. */
  lemma {:induction false} DaysAreOlder(ops: seq<Op>, d: Direction, sel: Selector, limit: int)
    requires NonNegativeOps(ops) && NothingOlder(sel, limit)
    requires forall op :: op in ops && op.FoldDays? ==> op.before <= limit
    ensures Sum(Run(ops).tiers.daily, d, sel) == 0
    decreases |ops|
  {
    if ops != [] {
      hide Sum, UniqueKeys;
      var before := ops[..|ops| - 1];
      var l, op := Run(before), ops[|ops| - 1];
      assert op in ops && forall o :: o in before ==> o in ops;
      if op.Prune? && op.keep > 0 {
        RunWellFormed(before);
        var kept := Busiest(l.tiers, op.keep);
        DaysAreOlder(before, d, Restricted(sel, kept), limit);
        PruneTiersAre(l.tiers, 3, op.keep);
        SumKept(l.tiers.daily, kept, d, sel);
      } else {
        DaysAreOlder(before, d, sel, limit);
        if op.FoldDays? {
          SumFold(l.tiers.daily, l.tiers.hourly, op.before, DAY, d, sel);
          OlderMissed(l.tiers.hourly, op.before, DAY, d, sel, limit);
        }
      }
    }
  }

  /** Every hour from the start on that no day fold has passed is the sum of that hour's kept rows, over any run. */
  lemma HourlySeriesExact(ops: seq<Op>, d: Direction, of: string, hour: nat, since: int)
    requires NonNegativeOps(ops) && hour >= since
    requires forall op :: op in ops && op.FoldDays? ==> op.before <= hour
    ensures SumHours(Run(ops).tiers, d, HourlyPoint(of, hour, since))
         == Sum(Run(ops).history, d, HourlyPoint(of, hour, since))
  {
    var sel := HourlyPoint(of, hour, since);
    assert NothingOlder(sel, hour) by {
      forall ts: nat, key: string | ts < hour ensures !sel(ts, key) { HourTwice(ts); }
    }
    hide Sum, Closed, HourlyPoint;
    forall op | op in ops
      ensures match op
        case FoldHours(before) => Closed(sel, HOUR, before)
        case FoldDays(before) => Closed(sel, DAY, before)
        case _ => true
    {
      match op
      case FoldHours(before) => HourlyPointClosed(of, hour, since, before);
      case FoldDays(before) => HourlyPointClosed(of, hour, since, before);
      case _ =>
    }
    RunConserves(ops, d, sel);
    DaysAreOlder(ops, d, sel, hour);
  }

  /** Under the cutoffs maintenance uses, these are all hours of the last seven days and today. */
  lemma MaintainedHourlySeries(ops: seq<Op>, now: nat, d: Direction, of: string, hour: nat, since: int)
    requires NonNegativeOps(ops) && Maintained(ops, now) && hour >= since && hour >= Bucket(now, DAY) - IP_HOURLY_RETENTION
    ensures SumHours(Run(ops).tiers, d, HourlyPoint(of, hour, since))
         == Sum(Run(ops).history, d, HourlyPoint(of, hour, since))
  {
    hide SumHours, Sum, Run, HourlyPoint, Bucket;
    forall op | op in ops && op.FoldDays? ensures op.before <= hour {
      assert FoldedAtSomeTime(op.before, now);
      var n: nat :| n <= now && op.before == Bucket(n, DAY) - IP_HOURLY_RETENTION;
      BucketsGrow(n, now);
    }
    HourlySeriesExact(ops, d, of, hour, since);
  }
}
