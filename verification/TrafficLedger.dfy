/**
 Whole-node usage and traffic packages (internal/monitor/store.go and
 traffic_package.go): samples fold into hours, while operator corrections and
 package grants are signed rows summed from the start of the quota cycle.
 Timestamps are Calendar times; they differ from Unix time by whole days.
 */
module TrafficLedger {
  import opened Wrappers
  import opened Tables
  import opened Calendar

  const MAX_INT64: nat := 0x7FFF_FFFF_FFFF_FFFF
  const MAX_UINT64: nat := 0xFFFF_FFFF_FFFF_FFFF
  const HISTORY_RETENTION: nat := 90 * DAY_SECONDS

  datatype Totals = Totals(inb: nat, outb: nat)

  datatype Package = Package(inb: nat, outb: nat, total: nat)

  datatype Kind = InKind | OutKind | TotalKind

  function Part(p: Package, k: Kind): nat {
    match k
    case InKind => p.inb
    case OutKind => p.outb
    case TotalKind => p.total
  }

  datatype Grant = Grant(ts: nat, inb: int, outb: int, total: int)

  function GrantPart(g: Grant, k: Kind): int {
    match k
    case InKind => g.inb
    case OutKind => g.outb
    case TotalKind => g.total
  }

  datatype Book = Book(samples: seq<Row>, hourly: seq<Row>, adjustments: seq<Row>, packages: seq<Grant>)

  const EMPTY: Book := Book([], [], [], [])

  function From(since: int): Selector {
    (ts: nat, key: string) => ts >= since
  }

  /** What the three usage queries add up to before clamping. */
  function Signed(b: Book, d: Direction, since: int): int {
    Sum(b.samples, d, From(since)) + Sum(b.hourly, d, From(since)) + Sum(b.adjustments, d, From(since))
  }

  function PackageSum(rows: seq<Grant>, k: Kind, since: int): int {
    if rows == [] then 0
    else (if rows[0].ts >= since then GrantPart(rows[0], k) else 0) + PackageSum(rows[1..], k, since)
  }

  /** nonNegativeUint64. */
  function Clamp(value: int): nat {
    if value <= 0 then 0 else value
  }

  function TotalsSince(b: Book, since: int): Totals {
    Totals(Clamp(Signed(b, In, since)), Clamp(Signed(b, Out, since)))
  }

  function PackageSince(b: Book, since: int): Package {
    Package(Clamp(PackageSum(b.packages, InKind, since)),
            Clamp(PackageSum(b.packages, OutKind, since)),
            Clamp(PackageSum(b.packages, TotalKind, since)))
  }

  /** signedDifference: refused outside the range a signed column can hold. */
  function SignedDifference(target: nat, current: nat): Option<int> {
    if target > MAX_INT64 || current > MAX_INT64 then None else Some(target - current)
  }

  function SaturatingAdd(a: nat, b: nat): nat {
    if b > MAX_UINT64 - a then MAX_UINT64 else a + b
  }

  /** TrafficPackage.Add. */
  function AddPackage(p: Package, other: Package): Package {
    Package(SaturatingAdd(p.inb, other.inb), SaturatingAdd(p.outb, other.outb), SaturatingAdd(p.total, other.total))
  }

  // ------------------------------------------------------------ ledger effects

  /** The signed row that moves usage to target, unless it is refused. */
  function Correction(b: Book, since: int, ts: nat, target: Totals): Option<Row> {
    var current := TotalsSince(b, since);
    match (SignedDifference(target.inb, current.inb), SignedDifference(target.outb, current.outb))
    case (Some(inb), Some(outb)) => Some(Row(ts, "", Bytes(inb, outb)))
    case _ => None
  }

  /** The signed row that moves the package to target, unless it is refused. */
  function PackageCorrection(b: Book, since: int, ts: nat, target: Package): Option<Grant> {
    var current := PackageSince(b, since);
    match (SignedDifference(target.inb, current.inb), SignedDifference(target.outb, current.outb),
           SignedDifference(target.total, current.total))
    case (Some(inb), Some(outb), Some(total)) => Some(Grant(ts, inb, outb, total))
    case _ => None
  }

  function Corrected(b: Book, since: int, ts: nat, target: Totals): Book {
    match Correction(b, since, ts, target)
    case Some(row) => b.(adjustments := b.adjustments + [row])
    case None => b
  }

  function PackageCorrected(b: Book, since: int, ts: nat, target: Package): Book {
    match PackageCorrection(b, since, ts, target)
    case Some(row) => b.(packages := b.packages + [row])
    case None => b
  }

  function Sampled(b: Book, ts: nat, delta: Bytes): Book {
    b.(samples := b.samples + [Row(ts, "", delta)])
  }

  function FoldedHours(b: Book, before: int): Book {
    b.(hourly := Fold(b.hourly, b.samples, before, HOUR), samples := NotOlder(b.samples, before))
  }

  function GrantsNotOlder(rows: seq<Grant>, cutoff: int): seq<Grant> {
    if rows == [] then []
    else if rows[0].ts < cutoff then GrantsNotOlder(rows[1..], cutoff)
    else [rows[0]] + GrantsNotOlder(rows[1..], cutoff)
  }

  function Cleaned(b: Book, cutoff: int): Book {
    b.(hourly := NotOlder(b.hourly, cutoff), adjustments := NotOlder(b.adjustments, cutoff),
       packages := GrantsNotOlder(b.packages, cutoff))
  }

  // ------------------------------------------------------------ sums

  ghost predicate NoLater(rows: seq<Row>, now: int) {
    forall i :: 0 <= i < |rows| ==> rows[i].ts <= now
  }

  ghost predicate GrantsNoLater(rows: seq<Grant>, now: int) {
    forall i :: 0 <= i < |rows| ==> rows[i].ts <= now
  }

  lemma {:induction false} NothingAhead(rows: seq<Row>, d: Direction, since: int)
    requires NoLater(rows, since - 1)
    ensures Sum(rows, d, From(since)) == 0
  {
    if rows != [] {
      assert forall i :: 0 <= i < |rows[1..]| ==> rows[1..][i] == rows[i + 1];
      NothingAhead(rows[1..], d, since);
    }
  }

  lemma {:induction false} NoGrantsAhead(rows: seq<Grant>, k: Kind, since: int)
    requires GrantsNoLater(rows, since - 1)
    ensures PackageSum(rows, k, since) == 0
  {
    if rows != [] {
      assert forall i :: 0 <= i < |rows[1..]| ==> rows[1..][i] == rows[i + 1];
      NoGrantsAhead(rows[1..], k, since);
    }
  }

  lemma SumSnoc(rows: seq<Row>, row: Row, d: Direction, since: int)
    ensures Sum(rows + [row], d, From(since)) == Sum(rows, d, From(since)) + (if row.ts >= since then Amount(row.bytes, d) else 0)
  {
    SumAppend(rows, [row], d, From(since));
    assert [row][1..] == [];
  }

  lemma {:induction false} PackageSumSnoc(rows: seq<Grant>, g: Grant, k: Kind, since: int)
    ensures PackageSum(rows + [g], k, since) == PackageSum(rows, k, since) + (if g.ts >= since then GrantPart(g, k) else 0)
  {
    if rows == [] {
      assert rows + [g] == [g];
      assert [g][1..] == [];
    } else {
      assert (rows + [g])[1..] == rows[1..] + [g];
      PackageSumSnoc(rows[1..], g, k, since);
    }
  }

  lemma {:induction false} CutBelow(rows: seq<Row>, cutoff: int, d: Direction, since: int)
    requires cutoff <= since
    ensures Sum(NotOlder(rows, cutoff), d, From(since)) == Sum(rows, d, From(since))
  {
    if rows != [] {
      CutBelow(rows[1..], cutoff, d, since);
    }
  }

  lemma {:induction false} GrantCutBelow(rows: seq<Grant>, cutoff: int, k: Kind, since: int)
    requires cutoff <= since
    ensures PackageSum(GrantsNotOlder(rows, cutoff), k, since) == PackageSum(rows, k, since)
  {
    if rows != [] {
      GrantCutBelow(rows[1..], cutoff, k, since);
    }
  }

  lemma HourClosed(since: int, before: int)
    requires since % HOUR == 0
    ensures Closed(From(since), HOUR, before)
  {
    forall ts: nat, key: string | ts < before
      ensures From(since)(Bucket(ts, HOUR), key) == From(since)(ts, key)
    {
    }
  }

  /** Folding hours moves no byte across an hour-aligned boundary. */
  lemma FoldKeepsUsage(b: Book, before: int, d: Direction, since: int)
    requires since % HOUR == 0
    ensures Signed(FoldedHours(b, before), d, since) == Signed(b, d, since)
  {
    HourClosed(since, before);
    FoldConserves(b.hourly, b.samples, before, HOUR, d, From(since));
  }

  /** One hourly bucket of the trend since a start. */
  function TrendBucket(hour: nat, since: int): Selector {
    (ts: nat, key: string) => Bucket(ts, HOUR) == hour && ts >= since
  }

  function Trend(b: Book, d: Direction, hour: nat, since: int): int {
    Sum(b.hourly, d, TrendBucket(hour, since)) + Sum(b.samples, d, TrendBucket(hour, since))
  }

  lemma {:induction false} BucketedTrend(rows: seq<Row>, d: Direction, hour: nat, since: int)
    ensures Sum(Bucketed(rows, HOUR), d, TrendBucket(hour, since))
         == if hour >= since then Sum(rows, d, TrendBucket(hour, since)) else 0
  {
    if rows != [] {
      BucketedTrend(rows[1..], d, hour, since);
      assert Bucket(Bucket(rows[0].ts, HOUR), HOUR) == Bucket(rows[0].ts, HOUR) <= rows[0].ts;
    }
  }

  /**
   A fold leaves every bucket that begins at or after the start as it was, wherever the
   start lies; the bucket the start falls into keeps only what was not folded.
   */
  lemma FoldKeepsTrend(b: Book, before: int, d: Direction, hour: nat, since: int)
    ensures Trend(FoldedHours(b, before), d, hour, since) == Trend(b, d, hour, since)
      - if hour >= since then 0 else Sum(Older(b.samples, before), d, TrendBucket(hour, since))
  {
    var sel := TrendBucket(hour, since);
    hide TrendBucket;
    SumFold(b.hourly, b.samples, before, HOUR, d, sel);
    BucketedTrend(Older(b.samples, before), d, hour, since);
    SumSplit(b.samples, before, d, sel);
  }

  // ------------------------------------------------------------ runs

  datatype Event =
    | Sample(delta: Bytes)
    | Correct(target: Totals)
    | AddGrant(extra: Package)
    | SetPackage(package: Package)
    | FoldHours(before: int)
    | Clean

  /** One thing that happens to the book while the clock reads now. */
  function Apply(b: Book, now: Time, e: Event, resetDay: nat, resetHour: nat): Book
    requires Month(now) >= 1
  {
    var since := CycleStart(now, resetDay, resetHour);
    match e
    case Sample(delta) => Sampled(b, now, delta)
    case Correct(target) => Corrected(b, since, now, target)
    case AddGrant(extra) => PackageCorrected(b, since, now, AddPackage(PackageSince(b, since), extra))
    case SetPackage(package) => PackageCorrected(b, since, now, package)
    case FoldHours(before) => FoldedHours(b, before)
    case Clean => Cleaned(b, now - HISTORY_RETENTION)
  }

  predicate ValidReset(resetDay: nat, resetHour: nat) {
    1 <= resetDay <= 28 && resetHour < 24
  }

  /** Nothing is stamped after now, and no ledger is negative since the cycle began. */
  ghost predicate Sound(b: Book, now: Time, resetDay: nat, resetHour: nat)
    requires Month(now) >= 1 && ValidReset(resetDay, resetHour)
  {
    && NoLater(b.samples, now) && NoLater(b.hourly, now) && NoLater(b.adjustments, now)
    && GrantsNoLater(b.packages, now)
    && (forall d :: Signed(b, d, CycleStart(now, resetDay, resetHour)) >= 0)
    && (forall k :: PackageSum(b.packages, k, CycleStart(now, resetDay, resetHour)) >= 0)
  }

  /** A clock tick keeps the book sound: a new cycle starts with empty ledgers. */
  lemma TickSound(b: Book, earlier: Time, now: Time, resetDay: nat, resetHour: nat)
    requires Month(earlier) >= 1 && ValidReset(resetDay, resetHour) && earlier <= now
    requires Sound(b, earlier, resetDay, resetHour)
    ensures Month(now) >= 1 && Sound(b, now, resetDay, resetHour)
    ensures CycleStart(now, resetDay, resetHour) != CycleStart(earlier, resetDay, resetHour) ==>
      TotalsSince(b, CycleStart(now, resetDay, resetHour)) == Totals(0, 0)
      && PackageSince(b, CycleStart(now, resetDay, resetHour)) == Package(0, 0, 0)
  {
    hide CycleStart, Month;
    CycleMonotone(earlier, now, resetDay, resetHour);
    var since := CycleStart(now, resetDay, resetHour);
    if since != CycleStart(earlier, resetDay, resetHour) {
      forall d ensures Signed(b, d, since) == 0 {
        NothingAhead(b.samples, d, since);
        NothingAhead(b.hourly, d, since);
        NothingAhead(b.adjustments, d, since);
      }
      forall k ensures PackageSum(b.packages, k, since) == 0 {
        NoGrantsAhead(b.packages, k, since);
      }
    }
  }

  /** An accepted correction reads back exactly; a refused one leaves the book alone. */
  lemma CorrectionReadsBack(b: Book, since: int, ts: nat, target: Totals)
    requires ts >= since && Signed(b, In, since) >= 0 && Signed(b, Out, since) >= 0
    ensures Correction(b, since, ts, target).Some? <==>
      target.inb <= MAX_INT64 && target.outb <= MAX_INT64
      && Signed(b, In, since) <= MAX_INT64 && Signed(b, Out, since) <= MAX_INT64
    ensures var b' := Corrected(b, since, ts, target);
      if Correction(b, since, ts, target).Some? then
        TotalsSince(b', since) == target && Signed(b', In, since) == target.inb && Signed(b', Out, since) == target.outb
      else b' == b
  {
    if Correction(b, since, ts, target).Some? {
      var row := Correction(b, since, ts, target).value;
      SumSnoc(b.adjustments, row, In, since);
      SumSnoc(b.adjustments, row, Out, since);
    }
  }

  lemma PackageReadsBack(b: Book, since: int, ts: nat, target: Package)
    requires ts >= since && forall k :: PackageSum(b.packages, k, since) >= 0
    ensures PackageCorrection(b, since, ts, target).Some? <==>
      forall k :: Part(target, k) <= MAX_INT64 && PackageSum(b.packages, k, since) <= MAX_INT64
    ensures var b' := PackageCorrected(b, since, ts, target);
      if PackageCorrection(b, since, ts, target).Some? then
        PackageSince(b', since) == target && forall k :: PackageSum(b'.packages, k, since) == Part(target, k)
      else b' == b
  {
    if PackageCorrection(b, since, ts, target).Some? {
      var row := PackageCorrection(b, since, ts, target).value;
      forall k ensures PackageSum((b.packages + [row]), k, since) == Part(target, k) {
        PackageSumSnoc(b.packages, row, k, since);
      }
    } else if target.inb <= MAX_INT64 && target.outb <= MAX_INT64 && target.total <= MAX_INT64 {
      assert exists k :: PackageSum(b.packages, k, since) > MAX_INT64;
    } else {
      assert exists k :: Part(target, k) > MAX_INT64 by {
        assert Part(target, InKind) > MAX_INT64 || Part(target, OutKind) > MAX_INT64 || Part(target, TotalKind) > MAX_INT64;
      }
    }
  }

  lemma AddPart(p: Package, other: Package, k: Kind)
    ensures var next := Part(AddPackage(p, other), k);
      if Part(p, k) + Part(other, k) <= MAX_INT64 then next == Part(p, k) + Part(other, k) else next > MAX_INT64
  {
  }

  /**
   A grant is accepted exactly when previous plus delta fits a signed column, so a
   saturated sum is always refused and an accepted one reads back as the plain sum.
   */
  lemma GrantAddsExactly(b: Book, since: int, ts: nat, delta: Package)
    requires ts >= since && forall k :: PackageSum(b.packages, k, since) >= 0
    ensures var previous := PackageSince(b, since);
      var b' := PackageCorrected(b, since, ts, AddPackage(previous, delta));
      if forall k :: Part(previous, k) + Part(delta, k) <= MAX_INT64 then
        PackageSince(b', since) == Package(previous.inb + delta.inb, previous.outb + delta.outb, previous.total + delta.total)
      else b' == b
  {
    var previous := PackageSince(b, since);
    var next := AddPackage(previous, delta);
    PackageReadsBack(b, since, ts, next);
    AddPart(previous, delta, InKind);
    AddPart(previous, delta, OutKind);
    AddPart(previous, delta, TotalKind);
    forall k ensures Part(previous, k) == PackageSum(b.packages, k, since) {
    }
    assert forall k :: Part(next, k) <= MAX_INT64 <==> Part(previous, k) + Part(delta, k) <= MAX_INT64;
    if forall k :: Part(previous, k) + Part(delta, k) <= MAX_INT64 {
      assert Part(next, InKind) <= MAX_INT64 && Part(next, OutKind) <= MAX_INT64 && Part(next, TotalKind) <= MAX_INT64;
    }
  }

  lemma FoldNoLater(b: Book, before: int, now: int)
    requires NoLater(b.samples, now) && NoLater(b.hourly, now)
    ensures NoLater(FoldedHours(b, before).samples, now) && NoLater(FoldedHours(b, before).hourly, now)
  {
    var moved := Bucketed(Older(b.samples, before), HOUR);
    OlderShape(b.samples, before);
    BucketedAt(Older(b.samples, before), HOUR);
    UpsertAllShape([], moved);
    UpsertAllShape(b.hourly, GroupBy(Older(b.samples, before), HOUR));
    SlotsNoLater(b.samples, now);
    SlotsNoLater(NotOlder(b.samples, before), now);
    SlotsNoLater(Older(b.samples, before), now);
    SlotsNoLater(b.hourly, now);
    SlotsNoLater(moved, now);
    SlotsNoLater(FoldedHours(b, before).hourly, now);
  }

  lemma SlotsNoLater(rows: seq<Row>, now: int)
    ensures NoLater(rows, now) <==> forall ts: nat, key: string :: HasSlot(rows, ts, key) ==> ts <= now
  {
    if forall ts: nat, key: string :: HasSlot(rows, ts, key) ==> ts <= now {
      forall i | 0 <= i < |rows| ensures rows[i].ts <= now {
        assert HasSlot(rows, rows[i].ts, rows[i].key);
      }
    }
  }

  lemma {:induction false} CutNoLater(rows: seq<Row>, cutoff: int, now: int)
    requires NoLater(rows, now)
    ensures NoLater(NotOlder(rows, cutoff), now)
  {
    OlderShape(rows, cutoff);
    SlotsNoLater(rows, now);
    SlotsNoLater(NotOlder(rows, cutoff), now);
  }

  lemma {:induction false} GrantCutNoLater(rows: seq<Grant>, cutoff: int, now: int)
    requires GrantsNoLater(rows, now)
    ensures GrantsNoLater(GrantsNotOlder(rows, cutoff), now)
  {
    if rows != [] {
      assert forall i :: 0 <= i < |rows[1..]| ==> rows[1..][i] == rows[i + 1];
      GrantCutNoLater(rows[1..], cutoff, now);
    }
  }

  ghost predicate NonNegativeEvent(e: Event) {
    e.Sample? ==> e.delta.NonNegative()
  }

  lemma CleanSound(b: Book, now: Time, resetDay: nat, resetHour: nat)
    requires Month(now) >= 1 && ValidReset(resetDay, resetHour) && Sound(b, now, resetDay, resetHour)
    ensures var since := CycleStart(now, resetDay, resetHour);
      && Sound(Cleaned(b, now - HISTORY_RETENTION), now, resetDay, resetHour)
      && (forall d :: Signed(Cleaned(b, now - HISTORY_RETENTION), d, since) == Signed(b, d, since))
      && (forall k :: PackageSum(Cleaned(b, now - HISTORY_RETENTION).packages, k, since) == PackageSum(b.packages, k, since))
  {
    hide CycleStart, Month;
    var since, cutoff := CycleStart(now, resetDay, resetHour), now - HISTORY_RETENTION;
    CycleShape(now, resetDay, resetHour);
    forall d ensures Signed(Cleaned(b, cutoff), d, since) == Signed(b, d, since) {
      CutBelow(b.hourly, cutoff, d, since);
      CutBelow(b.adjustments, cutoff, d, since);
    }
    forall k ensures PackageSum(Cleaned(b, cutoff).packages, k, since) == PackageSum(b.packages, k, since) {
      GrantCutBelow(b.packages, cutoff, k, since);
    }
    CutNoLater(b.hourly, cutoff, now);
    CutNoLater(b.adjustments, cutoff, now);
    GrantCutNoLater(b.packages, cutoff, now);
  }

  lemma CorrectSound(b: Book, now: Time, target: Totals, resetDay: nat, resetHour: nat)
    requires Month(now) >= 1 && ValidReset(resetDay, resetHour) && Sound(b, now, resetDay, resetHour)
    ensures Sound(Corrected(b, CycleStart(now, resetDay, resetHour), now, target), now, resetDay, resetHour)
  {
    hide CycleStart, Month, Correction, TotalsSince;
    var since := CycleStart(now, resetDay, resetHour);
    var b' := Corrected(b, since, now, target);
    CycleShape(now, resetDay, resetHour);
    CorrectionReadsBack(b, since, now, target);
    CorrectionStamp(b, since, now, target);
    BothIsSum(b', since);
    SoundReads(b, now, resetDay, resetHour);
    forall d ensures Signed(b', d, since) >= 0 {
      match d
      case In =>
      case Out =>
      case Both =>
    }
  }

  lemma CorrectionStamp(b: Book, since: int, ts: nat, target: Totals)
    ensures Correction(b, since, ts, target).Some? ==> Correction(b, since, ts, target).value.ts == ts
  {
  }

  lemma PackageSound(b: Book, now: Time, target: Package, resetDay: nat, resetHour: nat)
    requires Month(now) >= 1 && ValidReset(resetDay, resetHour) && Sound(b, now, resetDay, resetHour)
    ensures var since := CycleStart(now, resetDay, resetHour);
      && Sound(PackageCorrected(b, since, now, target), now, resetDay, resetHour)
      && forall d :: Signed(PackageCorrected(b, since, now, target), d, since) == Signed(b, d, since)
  {
    hide CycleStart, Month, PackageCorrection, PackageSince;
    var since := CycleStart(now, resetDay, resetHour);
    var b' := PackageCorrected(b, since, now, target);
    CycleShape(now, resetDay, resetHour);
    PackageReadsBack(b, since, now, target);
    PackageStamp(b, since, now, target);
    forall d ensures Signed(b', d, since) == Signed(b, d, since) {
    }
    forall k ensures PackageSum(b'.packages, k, since) >= 0 {
    }
  }

  lemma PackageStamp(b: Book, since: int, ts: nat, target: Package)
    ensures PackageCorrection(b, since, ts, target).Some? ==> PackageCorrection(b, since, ts, target).value.ts == ts
  {
  }

  /** What an event adds to the cycle's usage; corrections are absolute instead. */
  function SampledBytes(e: Event, d: Direction): int {
    if e.Sample? then Amount(e.delta, d) else 0
  }

  /** Every event keeps the book sound, and only samples and corrections move usage. */
  lemma ApplySound(b: Book, now: Time, e: Event, resetDay: nat, resetHour: nat)
    requires Month(now) >= 1 && ValidReset(resetDay, resetHour) && NonNegativeEvent(e)
    requires Sound(b, now, resetDay, resetHour)
    ensures Sound(Apply(b, now, e, resetDay, resetHour), now, resetDay, resetHour)
    ensures var since := CycleStart(now, resetDay, resetHour);
      !e.Correct? ==> forall d ::
        Signed(Apply(b, now, e, resetDay, resetHour), d, since) == Signed(b, d, since) + SampledBytes(e, d)
  {
    hide CycleStart, Month, Cleaned, FoldedHours, Corrected, PackageCorrected;
    var since := CycleStart(now, resetDay, resetHour);
    var b' := Apply(b, now, e, resetDay, resetHour);
    CycleShape(now, resetDay, resetHour);
    match e
    case Sample(delta) =>
      forall d ensures Signed(b', d, since) == Signed(b, d, since) + Amount(delta, d) {
        SumSnoc(b.samples, Row(now, "", delta), d, since);
      }
    case Correct(target) =>
      CorrectSound(b, now, target, resetDay, resetHour);
    case AddGrant(extra) =>
      PackageSound(b, now, AddPackage(PackageSince(b, since), extra), resetDay, resetHour);
    case SetPackage(package) =>
      PackageSound(b, now, package, resetDay, resetHour);
    case FoldHours(before) =>
      forall d ensures Signed(b', d, since) == Signed(b, d, since) {
        FoldKeepsUsage(b, before, d, since);
      }
      FoldNoLater(b, before, now);
      FoldKeepsLedgers(b, before);
    case Clean =>
      CleanSound(b, now, resetDay, resetHour);
  }

  lemma FoldKeepsLedgers(b: Book, before: int)
    ensures FoldedHours(b, before).adjustments == b.adjustments && FoldedHours(b, before).packages == b.packages
  {
  }

  lemma {:induction false} SumBoth(rows: seq<Row>, since: int)
    ensures Sum(rows, Both, From(since)) == Sum(rows, In, From(since)) + Sum(rows, Out, From(since))
  {
    if rows != [] {
      SumBoth(rows[1..], since);
    }
  }

  lemma BothIsSum(b: Book, since: int)
    ensures Signed(b, Both, since) == Signed(b, In, since) + Signed(b, Out, since)
  {
    SumBoth(b.samples, since);
    SumBoth(b.hourly, since);
    SumBoth(b.adjustments, since);
  }

  datatype Timed = Timed(at: Time, event: Event)

  /** The clock never runs backwards. */
  ghost predicate Clocked(start: Time, run: seq<Timed>) {
    && (forall i :: 0 <= i < |run| ==> start <= run[i].at && NonNegativeEvent(run[i].event))
    && (forall i, j :: 0 <= i < j < |run| ==> run[i].at <= run[j].at)
  }

  function Last(start: Time, run: seq<Timed>): Time {
    if run == [] then start else run[|run| - 1].at
  }

  function After(b: Book, start: Time, run: seq<Timed>, resetDay: nat, resetHour: nat): Book
    requires Month(start) >= 1 && Clocked(start, run)
  {
    if run == [] then b
    else
      var before := After(b, start, run[..|run| - 1], resetDay, resetHour);
      assert Month(run[|run| - 1].at) >= 1 by { MonthsGrow(start, run[|run| - 1].at); }
      Apply(before, run[|run| - 1].at, run[|run| - 1].event, resetDay, resetHour)
  }

  /** With a clock that never runs backwards no ledger ever goes negative within its cycle. */
  lemma {:induction false} RunSound(b: Book, start: Time, run: seq<Timed>, resetDay: nat, resetHour: nat)
    requires Month(start) >= 1 && Clocked(start, run) && ValidReset(resetDay, resetHour)
    requires Sound(b, start, resetDay, resetHour)
    ensures Month(Last(start, run)) >= 1
    ensures Sound(After(b, start, run, resetDay, resetHour), Last(start, run), resetDay, resetHour)
    decreases |run|
  {
    hide Apply, Sound, Month, CycleStart;
    if run != [] {
      var prefix, last := run[..|run| - 1], run[|run| - 1];
      RunSound(b, start, prefix, resetDay, resetHour);
      var before := After(b, start, prefix, resetDay, resetHour);
      TickSound(before, Last(start, prefix), last.at, resetDay, resetHour);
      ApplySound(before, last.at, last.event, resetDay, resetHour);
    }
  }

  function SampledTotal(run: seq<Timed>, d: Direction): int {
    if run == [] then 0 else SampledTotal(run[..|run| - 1], d) + SampledBytes(run[|run| - 1].event, d)
  }

  /**
   Within one cycle, usage read after any number of samples, folds, grants and
   clean-ups is the usage at the start plus exactly the later sample deltas.
   */
  lemma {:induction false} LaterReadsAddSamples(b: Book, start: Time, run: seq<Timed>, d: Direction, resetDay: nat, resetHour: nat)
    requires Month(start) >= 1 && Clocked(start, run) && ValidReset(resetDay, resetHour)
    requires Sound(b, start, resetDay, resetHour)
    requires forall i :: 0 <= i < |run| ==> !run[i].event.Correct?
    requires Last(start, run) < NextCycleReset(start, resetDay, resetHour)
    ensures var since := CycleStart(start, resetDay, resetHour);
      Signed(After(b, start, run, resetDay, resetHour), d, since) == Signed(b, d, since) + SampledTotal(run, d)
    decreases |run|
  {
    hide Apply, Sound, Month, CycleStart, NextCycleReset, Signed;
    if run != [] {
      var prefix, last := run[..|run| - 1], run[|run| - 1];
      LaterReadsAddSamples(b, start, prefix, d, resetDay, resetHour);
      RunSound(b, start, prefix, resetDay, resetHour);
      var before := After(b, start, prefix, resetDay, resetHour);
      TickSound(before, Last(start, prefix), last.at, resetDay, resetHour);
      ApplySound(before, last.at, last.event, resetDay, resetHour);
      CycleMonotone(start, last.at, resetDay, resetHour);
    }
  }

  /** After an accepted correction, the cycle reads target plus the later samples. */
  lemma CorrectionThenSamples(b: Book, start: Time, target: Totals, run: seq<Timed>, resetDay: nat, resetHour: nat)
    requires Month(start) >= 1 && Clocked(start, run) && ValidReset(resetDay, resetHour)
    requires Sound(b, start, resetDay, resetHour)
    requires forall i :: 0 <= i < |run| ==> !run[i].event.Correct?
    requires Last(start, run) < NextCycleReset(start, resetDay, resetHour)
    requires Correction(b, CycleStart(start, resetDay, resetHour), start, target).Some?
    ensures var since := CycleStart(start, resetDay, resetHour);
      var corrected := Apply(b, start, Correct(target), resetDay, resetHour);
      var end := After(corrected, start, run, resetDay, resetHour);
      && TotalsSince(corrected, since) == target
      && (TotalsSince(end, since).inb as int) == target.inb + SampledTotal(run, In)
      && (TotalsSince(end, since).outb as int) == target.outb + SampledTotal(run, Out)
  {
    hide Sound, Month, CycleStart, NextCycleReset, Signed, After, SampledTotal;
    var since := CycleStart(start, resetDay, resetHour);
    var corrected := Apply(b, start, Correct(target), resetDay, resetHour);
    CycleShape(start, resetDay, resetHour);
    SoundReads(b, start, resetDay, resetHour);
    CorrectionReadsBack(b, since, start, target);
    ApplySound(b, start, Correct(target), resetDay, resetHour);
    LaterReadsAddSamples(corrected, start, run, In, resetDay, resetHour);
    LaterReadsAddSamples(corrected, start, run, Out, resetDay, resetHour);
    RunSound(corrected, start, run, resetDay, resetHour);
    SampledNonNegative(run, start, In);
    SampledNonNegative(run, start, Out);
  }

  lemma SoundReads(b: Book, now: Time, resetDay: nat, resetHour: nat)
    requires Month(now) >= 1 && ValidReset(resetDay, resetHour) && Sound(b, now, resetDay, resetHour)
    ensures forall d :: Signed(b, d, CycleStart(now, resetDay, resetHour)) >= 0
    ensures forall k :: PackageSum(b.packages, k, CycleStart(now, resetDay, resetHour)) >= 0
  {
  }

  lemma {:induction false} SampledNonNegative(run: seq<Timed>, start: Time, d: Direction)
    requires Clocked(start, run)
    ensures SampledTotal(run, d) >= 0
    decreases |run|
  {
    if run != [] {
      SampledNonNegative(run[..|run| - 1], start, d);
    }
  }

  /** A cutoff keeps exactly the grants that are not older, as they stood. */
  lemma {:induction false} GrantsCutMeans(rows: seq<Grant>, cutoff: int)
    ensures forall g: Grant :: g in GrantsNotOlder(rows, cutoff) ==> g.ts >= cutoff
    ensures forall g: Grant :: g.ts >= cutoff ==> multiset(GrantsNotOlder(rows, cutoff))[g] == multiset(rows)[g]
  {
    if rows != [] {
      GrantsCutMeans(rows[1..], cutoff);
      assert rows == [rows[0]] + rows[1..];
    }
  }
}
