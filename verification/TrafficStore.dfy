/**
 The whole-node half of the Store object, and the functions that read and move one
 cycle's figures (internal/monitor/store.go, traffic_package.go). The clock field is
 the latest time the store was used at; callers never turn it back.
 */
module TrafficStore {
  import opened Wrappers
  import opened Tables
  import opened Calendar
  import opened TrafficLedger

  datatype Usage = Usage(totals: Totals, package: Package, cycleStart: int)

  datatype UsageResult =
    | CycleChanged
    | Failed
    | Updated(previous: Usage, applied: Usage)

  class Store {
    const resetDay: nat
    const resetHour: nat
    var samples: seq<Row>
    var hourly: seq<Row>
    var adjustments: seq<Row>
    var packages: seq<Grant>
    ghost var clock: Time

    ghost function Contents(): Book
      reads this
    {
      Book(samples, hourly, adjustments, packages)
    }

    ghost predicate Valid()
      reads this
    {
      && ValidReset(resetDay, resetHour) && Month(clock) >= 1
      && Sound(Contents(), clock, resetDay, resetHour)
    }

    constructor (now: Time, resetDay: nat, resetHour: nat)
      requires Month(now) >= 1 && 1 <= resetDay <= 28 && resetHour < 24
      ensures Valid() && Contents() == EMPTY && clock == now
      ensures this.resetDay == resetDay && this.resetHour == resetHour
    {
      this.resetDay, this.resetHour := resetDay, resetHour;
      samples, hourly, adjustments, packages, clock := [], [], [], [], now;
    }

    /** Bringing the clock up to now, which by itself keeps every ledger sound. */
    ghost method Tick(now: Time)
      requires Valid() && clock <= now
      modifies this`clock
      ensures Valid() && clock == now
      ensures forall d :: Signed(Contents(), d, CycleStart(now, resetDay, resetHour)) >= 0
      ensures forall k :: PackageSum(packages, k, CycleStart(now, resetDay, resetHour)) >= 0
      ensures CycleStart(now, resetDay, resetHour) <= now
    {
      TickSound(Contents(), clock, now, resetDay, resetHour);
      clock := now;
      SoundReads(Contents(), now, resetDay, resetHour);
      CycleShape(now, resetDay, resetHour);
    }

    method InsertSample(now: Time, delta: Bytes, commits: bool) returns (ok: bool)
      requires Valid() && clock <= now && delta.NonNegative()
      modifies this
      ensures Valid() && clock == now && ok == commits
      ensures Contents() == if ok then Sampled(old(Contents()), now, delta) else old(Contents())
    {
      Tick(now);
      if commits {
        ApplySound(Contents(), now, Sample(delta), resetDay, resetHour);
        samples := samples + [Row(now, "", delta)];
      }
      return commits;
    }

    /** Three queries summed one after the other, then clamped at zero. */
    method ReadTotals(since: int) returns (totals: Totals)
      ensures totals == TotalsSince(Contents(), since)
    {
      var tables := [samples, hourly, adjustments];
      var inSum, outSum, i := 0, 0, 0;
      while i < |tables|
        invariant i <= |tables|
        invariant inSum == PartialSum(tables[..i], In, since) && outSum == PartialSum(tables[..i], Out, since)
      {
        assert tables[..i + 1][..i] == tables[..i];
        inSum := inSum + Sum(tables[i], In, From(since));
        outSum := outSum + Sum(tables[i], Out, From(since));
        i := i + 1;
      }
      assert tables[..3] == tables && tables[..2] == [samples, hourly] && tables[..1] == [samples];
      ThreeTables(samples, hourly, adjustments, In, since);
      ThreeTables(samples, hourly, adjustments, Out, since);
      return Totals(Clamp(inSum), Clamp(outSum));
    }

    /** Moves the cycle's usage to target by one signed row, in one transaction. */
    method ReplaceTotals(since: int, now: Time, target: Totals, commits: bool) returns (previous: Totals, ok: bool)
      modifies this
      ensures clock == old(clock) && packages == old(packages)
      ensures previous == TotalsSince(old(Contents()), since)
      ensures ok <==> commits && Correction(old(Contents()), since, now, target).Some?
      ensures Contents() == if ok then Corrected(old(Contents()), since, now, target) else old(Contents())
    {
      previous := ReadTotals(since);
      var deltaIn, deltaOut := SignedDifference(target.inb, previous.inb), SignedDifference(target.outb, previous.outb);
      if deltaIn.None? || deltaOut.None? || !commits {
        return previous, false;
      }
      adjustments := adjustments + [Row(now, "", Bytes(deltaIn.value, deltaOut.value))];
      ok := true;
    }

    /** Moves the cycle's package to target by one signed row, in one transaction. */
    method AdjustPackage(since: int, now: Time, target: Package, commits: bool) returns (previous: Package, ok: bool)
      modifies this
      ensures clock == old(clock)
      ensures previous == PackageSince(old(Contents()), since)
      ensures ok <==> commits && PackageCorrection(old(Contents()), since, now, target).Some?
      ensures Contents() == if ok then PackageCorrected(old(Contents()), since, now, target) else old(Contents())
    {
      previous := PackageSince(Book(samples, hourly, adjustments, packages), since);
      var deltaIn, deltaOut := SignedDifference(target.inb, previous.inb), SignedDifference(target.outb, previous.outb);
      var deltaTotal := SignedDifference(target.total, previous.total);
      if deltaIn.None? || deltaOut.None? || deltaTotal.None? || !commits {
        return previous, false;
      }
      packages := packages + [Grant(now, deltaIn.value, deltaOut.value, deltaTotal.value)];
      ok := true;
    }

    method AggregateHourly(before: int, commits: bool) returns (ok: bool)
      requires Valid()
      modifies this
      ensures Valid() && clock == old(clock) && ok == commits
      ensures Contents() == if ok then FoldedHours(old(Contents()), before) else old(Contents())
      ensures forall d, since :: since % HOUR == 0 ==> Signed(Contents(), d, since) == Signed(old(Contents()), d, since)
      ensures forall d, hour, since :: hour >= since ==> Trend(Contents(), d, hour, since) == Trend(old(Contents()), d, hour, since)
    {
      if commits {
        ApplySound(Contents(), clock, FoldHours(before), resetDay, resetHour);
        forall d, since | since % HOUR == 0
          ensures Signed(FoldedHours(Contents(), before), d, since) == Signed(Contents(), d, since)
        {
          FoldKeepsUsage(Contents(), before, d, since);
        }
        forall d, hour: nat, since | hour >= since
          ensures Trend(FoldedHours(Contents(), before), d, hour, since) == Trend(Contents(), d, hour, since)
        {
          FoldKeepsTrend(Contents(), before, d, hour, since);
        }
        hourly := Fold(hourly, samples, before, HOUR);
        samples := NotOlder(samples, before);
      }
      return commits;
    }

    /** Separate deletes, of which the first so many succeed. */
    method Cleanup(cutoff: int, succeed: nat) returns (ok: bool)
      modifies this
      ensures clock == old(clock) && samples == old(samples)
      ensures ok <==> succeed >= 3
      ensures Contents() == PartlyCleaned(old(Contents()), succeed, cutoff)
      ensures ok ==> Contents() == Cleaned(old(Contents()), cutoff)
      ensures old(Valid()) && cutoff <= CycleStart(clock, resetDay, resetHour) ==> Valid()
      ensures forall d, since :: since >= cutoff ==> Signed(Contents(), d, since) == Signed(old(Contents()), d, since)
      ensures forall k, since :: since >= cutoff ==> PackageSum(packages, k, since) == PackageSum(old(packages), k, since)
    {
      CutAnywhere(hourly, cutoff);
      CutAnywhere(adjustments, cutoff);
      GrantsCutAnywhere(packages, cutoff);
      if Valid() && cutoff <= CycleStart(clock, resetDay, resetHour) {
        PartlyCleanedSound(Contents(), 1, cutoff, clock, resetDay, resetHour);
        PartlyCleanedSound(Contents(), 2, cutoff, clock, resetDay, resetHour);
        PartlyCleanedSound(Contents(), 3, cutoff, clock, resetDay, resetHour);
      }
      hide CycleStart, Sound, NotOlder, GrantsNotOlder;
      if succeed < 1 { return false; }
      hourly := NotOlder(hourly, cutoff);
      if succeed < 2 { return false; }
      adjustments := NotOlder(adjustments, cutoff);
      if succeed < 3 { return false; }
      packages := GrantsNotOlder(packages, cutoff);
      return true;
    }

    method ReadCurrentTrafficUsage(now: Time) returns (usage: Usage)
      requires Valid() && clock <= now
      modifies this`clock
      ensures Valid() && clock == now
      ensures var since := CycleStart(now, resetDay, resetHour);
        usage == Usage(TotalsSince(Contents(), since), PackageSince(Contents(), since), since)
    {
      Tick(now);
      var since := CycleStart(now, resetDay, resetHour);
      var totals := ReadTotals(since);
      return Usage(totals, PackageSince(Book(samples, hourly, adjustments, packages), since), since);
    }

    /**
     Sets the expected cycle's usage, and its package when one is given. The two are
     separate transactions with a read between them, so a failure, of that read too, can
     leave the first applied.
     */
    method ReplaceCurrentTrafficUsage(now: Time, expected: int, target: Totals, package: Option<Package>,
                                      commitsUsage: bool, packageReads: bool, commitsPackage: bool) returns (r: UsageResult)
      requires Valid() && clock <= now
      modifies this
      ensures Valid() && clock == now
      ensures r.CycleChanged? <==> CycleStart(now, resetDay, resetHour) != expected
      ensures r.CycleChanged? ==> Contents() == old(Contents())
      ensures r.Updated? ==>
        && r.previous.totals == TotalsSince(old(Contents()), expected)
        && r.previous.package == PackageSince(old(Contents()), expected)
        && r.applied.totals == TotalsSince(Contents(), expected) == target
        && r.applied.package == PackageSince(Contents(), expected)
        && r.applied.package == (match package case Some(p) => p case None => r.previous.package)
      ensures r.Failed? ==> packages == old(packages)
      ensures var moves := commitsUsage && Correction(old(Contents()), expected, now, target).Some?;
        r.Failed? ==> Contents() == if moves then Corrected(old(Contents()), expected, now, target) else old(Contents())
      ensures var moves := commitsUsage && Correction(old(Contents()), expected, now, target).Some?;
        r.Failed? && moves ==> TotalsSince(Contents(), expected) == target && !(packageReads && package.None?)
      ensures r.Updated? <==>
        && CycleStart(now, resetDay, resetHour) == expected && packageReads
        && commitsUsage && Correction(old(Contents()), expected, now, target).Some?
        && (package.Some? ==> commitsPackage && PackageCorrection(old(Contents()), expected, now, package.value).Some?)
    {
      hide CycleStart, Month, Sound, Signed, SignedDifference, PackageSum, ValidReset;
      Tick(now);
      var since := CycleStart(now, resetDay, resetHour);
      if since != expected {
        return CycleChanged;
      }
      CorrectionReadsBack(Contents(), since, now, target);
      ApplySound(Contents(), now, Correct(target), resetDay, resetHour);
      var previous, ok := ReplaceTotals(since, now, target, commitsUsage);
      if !ok {
        return Failed;
      }
      SoundReads(Contents(), now, resetDay, resetHour);
      if !packageReads {
        return Failed;
      }
      var previousPackage := PackageSince(Book(samples, hourly, adjustments, packages), since);
      var applied := previousPackage;
      if package.Some? {
        PackageReadsBack(Contents(), since, now, package.value);
        ApplySound(Contents(), now, SetPackage(package.value), resetDay, resetHour);
        previousPackage, ok := AdjustPackage(since, now, package.value, commitsPackage);
        if !ok {
          return Failed;
        }
        applied := package.value;
      }
      return Updated(Usage(previous, previousPackage, since), Usage(target, applied, since));
    }

    /** Adds delta to the expected cycle's package and leaves its usage alone. */
    method GrantCurrentTrafficPackage(now: Time, expected: int, delta: Package, commits: bool) returns (r: UsageResult)
      requires Valid() && clock <= now
      modifies this
      ensures Valid() && clock == now
      ensures samples == old(samples) && hourly == old(hourly) && adjustments == old(adjustments)
      ensures r.CycleChanged? <==> CycleStart(now, resetDay, resetHour) != expected
      ensures !r.Updated? ==> packages == old(packages)
      ensures var previous := PackageSince(old(Contents()), expected);
        r.Updated? <==>
          && CycleStart(now, resetDay, resetHour) == expected && commits
          && forall k :: Part(previous, k) + Part(delta, k) <= MAX_INT64
      ensures r.Updated? ==>
        var previous := PackageSince(old(Contents()), expected);
        var granted := Package(previous.inb + delta.inb, previous.outb + delta.outb, previous.total + delta.total);
        && r.previous == Usage(TotalsSince(Contents(), expected), previous, expected)
        && r.applied == Usage(TotalsSince(Contents(), expected), granted, expected)
        && PackageSince(Contents(), expected) == granted
    {
      Tick(now);
      var since := CycleStart(now, resetDay, resetHour);
      if since != expected {
        return CycleChanged;
      }
      var totals := ReadTotals(since);
      var previous := PackageSince(Book(samples, hourly, adjustments, packages), since);
      var next := AddPackage(previous, delta);
      GrantAddsExactly(Contents(), since, now, delta);
      GrantAccepted(Contents(), since, now, delta);
      ApplySound(Contents(), now, AddGrant(delta), resetDay, resetHour);
      var _, ok := AdjustPackage(since, now, next, commits);
      if !ok {
        return Failed;
      }
      return Updated(Usage(totals, previous, since), Usage(totals, next, since));
    }
  }

  /** The book after the first deletes of a cleanup. */
  function PartlyCleaned(b: Book, deletes: nat, cutoff: int): Book {
    b.(hourly := if deletes >= 1 then NotOlder(b.hourly, cutoff) else b.hourly,
       adjustments := if deletes >= 2 then NotOlder(b.adjustments, cutoff) else b.adjustments,
       packages := if deletes >= 3 then GrantsNotOlder(b.packages, cutoff) else b.packages)
  }

  /** Which deletes are done: of the hours, the corrections and the packages, in this order; the samples are not touched. */
  lemma CleanupOrder(b: Book, cutoff: int)
    ensures PartlyCleaned(b, 0, cutoff) == b
    ensures PartlyCleaned(b, 1, cutoff) == b.(hourly := NotOlder(b.hourly, cutoff))
    ensures PartlyCleaned(b, 2, cutoff) == Cleaned(b, cutoff).(packages := b.packages)
    ensures forall deletes :: deletes >= 3 ==> PartlyCleaned(b, deletes, cutoff) == Cleaned(b, cutoff)
  {
  }

  /** A cleanup older than the cycle keeps the ledgers sound wherever it stops. */
  lemma PartlyCleanedSound(b: Book, deletes: nat, cutoff: int, now: Time, resetDay: nat, resetHour: nat)
    requires Month(now) >= 1 && ValidReset(resetDay, resetHour) && Sound(b, now, resetDay, resetHour)
    requires cutoff <= CycleStart(now, resetDay, resetHour)
    ensures Sound(PartlyCleaned(b, deletes, cutoff), now, resetDay, resetHour)
  {
    hide CycleStart, Month, NotOlder, GrantsNotOlder;
    CutAnywhere(b.hourly, cutoff);
    CutAnywhere(b.adjustments, cutoff);
    GrantsCutAnywhere(b.packages, cutoff);
    CutNoLater(b.hourly, cutoff, now);
    CutNoLater(b.adjustments, cutoff, now);
    GrantCutNoLater(b.packages, cutoff, now);
    var since, b' := CycleStart(now, resetDay, resetHour), PartlyCleaned(b, deletes, cutoff);
    forall d ensures Signed(b', d, since) >= 0 {
      assert Signed(b, d, since) >= 0;
    }
    forall k ensures PackageSum(b'.packages, k, since) >= 0 {
      assert PackageSum(b.packages, k, since) >= 0;
    }
  }

  function PartialSum(tables: seq<seq<Row>>, d: Direction, since: int): int {
    if tables == [] then 0 else PartialSum(tables[..|tables| - 1], d, since) + Sum(tables[|tables| - 1], d, From(since))
  }

  lemma ThreeTables(a: seq<Row>, b: seq<Row>, c: seq<Row>, d: Direction, since: int)
    ensures PartialSum([a, b, c], d, since) == Sum(a, d, From(since)) + Sum(b, d, From(since)) + Sum(c, d, From(since))
  {
    hide Sum;
    assert [a, b, c][..2] == [a, b] && [a, b][..1] == [a] && [a][..0] == [];
    assert PartialSum([a], d, since) == PartialSum([], d, since) + Sum(a, d, From(since));
    assert PartialSum([a, b], d, since) == PartialSum([a], d, since) + Sum(b, d, From(since));
  }

  lemma CutAnywhere(rows: seq<Row>, cutoff: int)
    ensures forall d, since :: since >= cutoff ==> Sum(NotOlder(rows, cutoff), d, From(since)) == Sum(rows, d, From(since))
  {
    forall d, since | since >= cutoff
      ensures Sum(NotOlder(rows, cutoff), d, From(since)) == Sum(rows, d, From(since))
    {
      CutBelow(rows, cutoff, d, since);
    }
  }

  lemma GrantsCutAnywhere(rows: seq<Grant>, cutoff: int)
    ensures forall k, since :: since >= cutoff ==>
      PackageSum(GrantsNotOlder(rows, cutoff), k, since) == PackageSum(rows, k, since)
  {
    forall k, since | since >= cutoff
      ensures PackageSum(GrantsNotOlder(rows, cutoff), k, since) == PackageSum(rows, k, since)
    {
      GrantCutBelow(rows, cutoff, k, since);
    }
  }

  /** The saturated sum is refused exactly when the plain sum does not fit. */
  lemma GrantAccepted(b: Book, since: int, ts: nat, delta: Package)
    requires ts >= since && forall k :: PackageSum(b.packages, k, since) >= 0
    ensures var previous := PackageSince(b, since);
      PackageCorrection(b, since, ts, AddPackage(previous, delta)).Some? <==>
        forall k :: Part(previous, k) + Part(delta, k) <= MAX_INT64
    ensures var previous := PackageSince(b, since);
      (forall k :: Part(previous, k) + Part(delta, k) <= MAX_INT64) ==>
        AddPackage(previous, delta) == Package(previous.inb + delta.inb, previous.outb + delta.outb, previous.total + delta.total)
  {
    var previous := PackageSince(b, since);
    PackageReadsBack(b, since, ts, AddPackage(previous, delta));
    AddPart(previous, delta, InKind);
    AddPart(previous, delta, OutKind);
    AddPart(previous, delta, TotalKind);
    assert forall k :: Part(previous, k) == PackageSum(b.packages, k, since);
    assert forall k :: Part(AddPackage(previous, delta), k) <= MAX_INT64 <==> Part(previous, k) + Part(delta, k) <= MAX_INT64;
    if forall k :: Part(previous, k) + Part(delta, k) <= MAX_INT64 {
      assert Part(previous, InKind) + Part(delta, InKind) <= MAX_INT64;
      assert Part(previous, OutKind) + Part(delta, OutKind) <= MAX_INT64;
      assert Part(previous, TotalKind) + Part(delta, TotalKind) <= MAX_INT64;
    }
  }
}
