/**
 The storage tiers of the monitor database. A table is its list of rows; a
 primary key is the pair (bucket, accounting key), which ON CONFLICT adds into.
 Node-wide tables use the empty accounting key.
 */
module Tables {

  datatype Bytes = Bytes(inb: int, outb: int) {
    function Plus(other: Bytes): Bytes { Bytes(inb + other.inb, outb + other.outb) }
    predicate NonNegative() { inb >= 0 && outb >= 0 }
  }

  datatype Row = Row(ts: nat, key: string, bytes: Bytes)

  const HOUR: nat := 3600
  const DAY: nat := 86400

  /** A WHERE clause over a row's bucket and accounting key. */
  type Selector = (nat, string) -> bool

  datatype Direction = In | Out | Both

  function Amount(b: Bytes, d: Direction): int {
    match d
    case In => b.inb
    case Out => b.outb
    case Both => b.inb + b.outb
  }

  function Pick(r: Row, d: Direction, sel: Selector): int {
    if sel(r.ts, r.key) then Amount(r.bytes, d) else 0
  }

  function Sum(t: seq<Row>, d: Direction, sel: Selector): int {
    if t == [] then 0 else Pick(t[0], d, sel) + Sum(t[1..], d, sel)
  }

  /** INSERT ... ON CONFLICT DO UPDATE SET bytes = bytes + excluded.bytes. */
  function Upsert(t: seq<Row>, r: Row): seq<Row> {
    if t == [] then [r]
    else if t[0].ts == r.ts && t[0].key == r.key then [t[0].(bytes := t[0].bytes.Plus(r.bytes))] + t[1..]
    else [t[0]] + Upsert(t[1..], r)
  }

  function UpsertAll(t: seq<Row>, rows: seq<Row>): seq<Row>
    decreases rows
  {
    if rows == [] then t else UpsertAll(Upsert(t, rows[0]), rows[1..])
  }

  /** The SQL expression (ts/width)*width, for a non-negative timestamp. */
  function Bucket(ts: nat, width: nat): nat
    requires width > 0
  {
    ts / width * width
  }

  function Older(t: seq<Row>, before: int): seq<Row> {
    if t == [] then []
    else if t[0].ts < before then [t[0]] + Older(t[1..], before)
    else Older(t[1..], before)
  }

  function NotOlder(t: seq<Row>, before: int): seq<Row> {
    if t == [] then []
    else if t[0].ts < before then NotOlder(t[1..], before)
    else [t[0]] + NotOlder(t[1..], before)
  }

  function Bucketed(t: seq<Row>, width: nat): seq<Row>
    requires width > 0
  {
    if t == [] then []
    else [t[0].(ts := Bucket(t[0].ts, width))] + Bucketed(t[1..], width)
  }

  /** SELECT (ts/width)*width, key, SUM(bytes) FROM t GROUP BY 1, 2. */
  function GroupBy(t: seq<Row>, width: nat): seq<Row>
    requires width > 0
  {
    UpsertAll([], Bucketed(t, width))
  }

  /** The INSERT half of a fold: the groups of the old rows, added into dst. */
  function Fold(dst: seq<Row>, src: seq<Row>, before: int, width: nat): seq<Row>
    requires width > 0
  {
    UpsertAll(dst, GroupBy(Older(src, before), width))
  }

  // ------------------------------------------------------------------ sums

  lemma {:induction false} SumUpsert(t: seq<Row>, r: Row, d: Direction, sel: Selector)
    ensures Sum(Upsert(t, r), d, sel) == Sum(t, d, sel) + Pick(r, d, sel)
  {
    if t != [] && !(t[0].ts == r.ts && t[0].key == r.key) {
      SumUpsert(t[1..], r, d, sel);
      assert Upsert(t, r)[1..] == Upsert(t[1..], r);
    }
  }

  lemma {:induction false} SumAppend(t: seq<Row>, u: seq<Row>, d: Direction, sel: Selector)
    ensures Sum(t + u, d, sel) == Sum(t, d, sel) + Sum(u, d, sel)
  {
    if t == [] {
      assert t + u == u;
    } else {
      var s := t + u;
      assert s[0] == t[0] && s[1..] == t[1..] + u;
      SumAppend(t[1..], u, d, sel);
    }
  }

  lemma {:induction false} SumUpsertAll(t: seq<Row>, rows: seq<Row>, d: Direction, sel: Selector)
    ensures Sum(UpsertAll(t, rows), d, sel) == Sum(t, d, sel) + Sum(rows, d, sel)
    decreases rows
  {
    if rows != [] {
      var u := Upsert(t, rows[0]);
      SumUpsert(t, rows[0], d, sel);
      SumUpsertAll(u, rows[1..], d, sel);
    }
  }

  lemma {:induction false} SumSplit(t: seq<Row>, before: int, d: Direction, sel: Selector)
    ensures Sum(t, d, sel) == Sum(Older(t, before), d, sel) + Sum(NotOlder(t, before), d, sel)
  {
    if t != [] {
      SumSplit(t[1..], before, d, sel);
      if t[0].ts < before {
        assert Older(t, before)[1..] == Older(t[1..], before);
      } else {
        assert NotOlder(t, before)[1..] == NotOlder(t[1..], before);
      }
    }
  }

  /** A fold's whole effect on any sum over the destination table. */
  lemma SumFold(dst: seq<Row>, src: seq<Row>, before: int, width: nat, d: Direction, sel: Selector)
    requires width > 0
    ensures Sum(Fold(dst, src, before, width), d, sel)
         == Sum(dst, d, sel) + Sum(Bucketed(Older(src, before), width), d, sel)
  {
    var moved := Bucketed(Older(src, before), width);
    SumUpsertAll([], moved, d, sel);
    SumUpsertAll(dst, GroupBy(Older(src, before), width), d, sel);
  }

  /** sel cannot tell a row older than before from the bucket it folds into. */
  ghost predicate Closed(sel: Selector, width: nat, before: int)
    requires width > 0
  {
    forall ts: nat, key: string :: ts < before ==> sel(Bucket(ts, width), key) == sel(ts, key)
  }

  lemma {:induction false} SumBucketed(t: seq<Row>, before: int, width: nat, d: Direction, sel: Selector)
    requires width > 0 && Closed(sel, width, before)
    ensures Sum(Bucketed(Older(t, before), width), d, sel) == Sum(Older(t, before), d, sel)
  {
    if t != [] {
      SumBucketed(t[1..], before, width, d, sel);
      if t[0].ts < before {
        assert sel(Bucket(t[0].ts, width), t[0].key) == sel(t[0].ts, t[0].key);
      }
    }
  }

  /** Folding then pruning moves bytes between tiers and loses none. */
  lemma FoldConserves(dst: seq<Row>, src: seq<Row>, before: int, width: nat, d: Direction, sel: Selector)
    requires width > 0 && Closed(sel, width, before)
    ensures Sum(Fold(dst, src, before, width), d, sel) + Sum(NotOlder(src, before), d, sel)
         == Sum(dst, d, sel) + Sum(src, d, sel)
  {
    SumFold(dst, src, before, width, d, sel);
    SumBucketed(src, before, width, d, sel);
    SumSplit(src, before, d, sel);
  }

  // ------------------------------------------------------------------ shape

  /** The primary key constraint. */
  ghost predicate UniqueKeys(t: seq<Row>) {
    forall i, j :: 0 <= i < j < |t| ==> t[i].ts != t[j].ts || t[i].key != t[j].key
  }

  ghost predicate NonNegativeRows(t: seq<Row>) {
    forall i :: 0 <= i < |t| ==> t[i].bytes.NonNegative()
  }

  predicate HasSlot(t: seq<Row>, ts: nat, key: string) {
    exists i :: 0 <= i < |t| && t[i].ts == ts && t[i].key == key
  }

  lemma {:induction false} UpsertSlots(t: seq<Row>, r: Row)
    ensures forall ts: nat, key: string :: HasSlot(Upsert(t, r), ts, key) <==> HasSlot(t, ts, key) || (ts == r.ts && key == r.key)
  {
    if t == [] {
      SlotCons(r, []);
      assert [r] + [] == [r];
    } else {
      var updated := t[0].(bytes := t[0].bytes.Plus(r.bytes));
      if !(t[0].ts == r.ts && t[0].key == r.key) { UpsertSlots(t[1..], r); }
      hide HasSlot;
      assert t == [t[0]] + t[1..];
      SlotCons(t[0], t[1..]);
      SlotCons(updated, t[1..]);
      SlotCons(t[0], Upsert(t[1..], r));
    }
  }

  lemma {:induction false} UpsertUnique(t: seq<Row>, r: Row)
    requires UniqueKeys(t)
    ensures UniqueKeys(Upsert(t, r))
  {
    if t != [] {
      var updated := t[0].(bytes := t[0].bytes.Plus(r.bytes));
      UniqueCons(t[0], t[1..]);
      assert t == [t[0]] + t[1..];
      if t[0].ts == r.ts && t[0].key == r.key {
        UniqueCons(updated, t[1..]);
      } else {
        UpsertUnique(t[1..], r);
        hide UniqueKeys, HasSlot;
        UpsertSlots(t[1..], r);
        UniqueCons(t[0], Upsert(t[1..], r));
      }
    }
  }

  lemma {:induction false} UpsertNonNegative(t: seq<Row>, r: Row)
    requires NonNegativeRows(t) && r.bytes.NonNegative()
    ensures NonNegativeRows(Upsert(t, r))
  {
    if t != [] { UpsertNonNegative(t[1..], r); }
  }

  lemma UpsertShape(t: seq<Row>, r: Row)
    ensures UniqueKeys(t) ==> UniqueKeys(Upsert(t, r))
    ensures NonNegativeRows(t) && r.bytes.NonNegative() ==> NonNegativeRows(Upsert(t, r))
    ensures forall ts: nat, key: string :: HasSlot(Upsert(t, r), ts, key) <==> HasSlot(t, ts, key) || (ts == r.ts && key == r.key)
  {
    hide UniqueKeys, NonNegativeRows, HasSlot, Upsert;
    if UniqueKeys(t) { UpsertUnique(t, r); }
    if NonNegativeRows(t) && r.bytes.NonNegative() { UpsertNonNegative(t, r); }
    UpsertSlots(t, r);
  }

  lemma UniqueCons(head: Row, tail: seq<Row>)
    ensures UniqueKeys([head] + tail) <==> UniqueKeys(tail) && !HasSlot(tail, head.ts, head.key)
  {
    if UniqueKeys([head] + tail) { UniqueTail(head, tail); }
    if UniqueKeys(tail) && !HasSlot(tail, head.ts, head.key) { UniqueLonger(head, tail); }
  }

  lemma UniqueTail(head: Row, tail: seq<Row>)
    requires UniqueKeys([head] + tail)
    ensures UniqueKeys(tail) && !HasSlot(tail, head.ts, head.key)
  {
    var t := [head] + tail;
    assert t[1..] == tail;
    assert forall i :: 0 <= i < |tail| ==> tail[i] == t[i + 1];
    assert forall i :: 0 <= i < |tail| ==> tail[i].ts != head.ts || tail[i].key != head.key by {
      forall i | 0 <= i < |tail| ensures tail[i].ts != head.ts || tail[i].key != head.key {
        assert t[0] == head && t[i + 1] == tail[i];
      }
    }
  }

  lemma UniqueLonger(head: Row, tail: seq<Row>)
    requires UniqueKeys(tail) && !HasSlot(tail, head.ts, head.key)
    ensures UniqueKeys([head] + tail)
  {
    var t := [head] + tail;
    forall i, j | 0 <= i < j < |t| ensures t[i].ts != t[j].ts || t[i].key != t[j].key {
      assert t[j] == tail[j - 1];
      if i > 0 { assert t[i] == tail[i - 1]; }
    }
  }

  lemma SlotCons(head: Row, tail: seq<Row>)
    ensures forall ts: nat, key: string :: HasSlot([head] + tail, ts, key) <==> (head.ts == ts && head.key == key) || HasSlot(tail, ts, key)
  {
    var t := [head] + tail;
    forall ts: nat, key: string
      ensures HasSlot(t, ts, key) <==> (head.ts == ts && head.key == key) || HasSlot(tail, ts, key)
    {
      if HasSlot(tail, ts, key) {
        var i :| 0 <= i < |tail| && tail[i].ts == ts && tail[i].key == key;
        assert t[i + 1] == tail[i];
      }
      if head.ts == ts && head.key == key {
        assert t[0] == head;
      }
      if HasSlot(t, ts, key) {
        var i :| 0 <= i < |t| && t[i].ts == ts && t[i].key == key;
        assert i > 0 ==> tail[i - 1] == t[i];
      }
    }
  }

  lemma {:induction false} UpsertAllShape(t: seq<Row>, rows: seq<Row>)
    ensures UniqueKeys(t) ==> UniqueKeys(UpsertAll(t, rows))
    ensures NonNegativeRows(t) && NonNegativeRows(rows) ==> NonNegativeRows(UpsertAll(t, rows))
    ensures forall ts: nat, key: string :: HasSlot(UpsertAll(t, rows), ts, key) <==> HasSlot(t, ts, key) || HasSlot(rows, ts, key)
    decreases rows
  {
    if rows != [] {
      UpsertShape(t, rows[0]);
      UpsertAllShape(Upsert(t, rows[0]), rows[1..]);
      SlotCons(rows[0], rows[1..]);
      assert rows == [rows[0]] + rows[1..];
    }
  }

  /** Selects one primary key. */
  function Slot(atTs: nat, atKey: string): Selector {
    (ts: nat, key: string) => ts == atTs && key == atKey
  }

  /** Selects the rows of one accounting key whose bucket of the given width is b. */
  function InBucket(b: nat, width: nat, atKey: string): Selector
    requires width > 0
  {
    (ts: nat, key: string) => Bucket(ts, width) == b && key == atKey
  }

  lemma {:induction false} SumNoSlot(t: seq<Row>, d: Direction, ts: nat, key: string)
    requires !HasSlot(t, ts, key)
    ensures Sum(t, d, Slot(ts, key)) == 0
  {
    if t != [] {
      assert t == [t[0]] + t[1..];
      SlotCons(t[0], t[1..]);
      SumNoSlot(t[1..], d, ts, key);
    }
  }

  /** Under the primary key constraint the sum over one slot is that row's value. */
  lemma {:induction false} SumSlot(t: seq<Row>, d: Direction, i: nat)
    requires UniqueKeys(t) && i < |t|
    ensures Sum(t, d, Slot(t[i].ts, t[i].key)) == Amount(t[i].bytes, d)
  {
    var ts, key := t[i].ts, t[i].key;
    assert forall j :: 0 <= j < |t[1..]| ==> t[1..][j] == t[j + 1];
    if i == 0 {
      assert !HasSlot(t[1..], ts, key);
      SumNoSlot(t[1..], d, ts, key);
    } else {
      SumSlot(t[1..], d, i - 1);
    }
  }

  lemma {:induction false} SumBucketedSlot(t: seq<Row>, d: Direction, width: nat, b: nat, key: string)
    requires width > 0
    ensures Sum(Bucketed(t, width), d, Slot(b, key)) == Sum(t, d, InBucket(b, width, key))
  {
    if t != [] {
      SumBucketedSlot(t[1..], d, width, b, key);
    }
  }

  /** GROUP BY gives one row per bucket and key, holding exactly that group's sum. */
  lemma GroupByMeans(t: seq<Row>, d: Direction, width: nat)
    requires width > 0
    ensures UniqueKeys(GroupBy(t, width))
    ensures forall i :: 0 <= i < |GroupBy(t, width)| ==>
      var r := GroupBy(t, width)[i]; Amount(r.bytes, d) == Sum(t, d, InBucket(r.ts, width, r.key))
    ensures forall i :: 0 <= i < |t| ==> HasSlot(GroupBy(t, width), Bucket(t[i].ts, width), t[i].key)
  {
    var moved := Bucketed(t, width);
    var groups := GroupBy(t, width);
    UpsertAllShape([], moved);
    forall i | 0 <= i < |groups|
      ensures Amount(groups[i].bytes, d) == Sum(t, d, InBucket(groups[i].ts, width, groups[i].key))
    {
      var r := groups[i];
      SumSlot(groups, d, i);
      SumUpsertAll([], moved, d, Slot(r.ts, r.key));
      SumBucketedSlot(t, d, width, r.ts, r.key);
    }
    BucketedAt(t, width);
    forall i | 0 <= i < |t|
      ensures HasSlot(groups, Bucket(t[i].ts, width), t[i].key)
    {
      assert moved[i].ts == Bucket(t[i].ts, width) && moved[i].key == t[i].key;
      assert HasSlot(moved, Bucket(t[i].ts, width), t[i].key);
    }
  }

  lemma {:induction false} BucketedAt(t: seq<Row>, width: nat)
    requires width > 0
    ensures |Bucketed(t, width)| == |t|
    ensures forall i :: 0 <= i < |t| ==> Bucketed(t, width)[i] == t[i].(ts := Bucket(t[i].ts, width))
  {
    if t != [] {
      BucketedAt(t[1..], width);
    }
  }

  lemma {:induction false} OlderShape(t: seq<Row>, before: int)
    ensures NonNegativeRows(t) ==> NonNegativeRows(Older(t, before)) && NonNegativeRows(NotOlder(t, before))
    ensures forall ts: nat, key: string :: HasSlot(Older(t, before), ts, key) <==> HasSlot(t, ts, key) && ts < before
    ensures forall ts: nat, key: string :: HasSlot(NotOlder(t, before), ts, key) <==> HasSlot(t, ts, key) && ts >= before
    ensures UniqueKeys(t) ==> UniqueKeys(NotOlder(t, before))
  {
    if t != [] {
      assert t == [t[0]] + t[1..];
      SlotCons(t[0], t[1..]);
      OlderShape(t[1..], before);
      if t[0].ts < before {
        SlotCons(t[0], Older(t[1..], before));
      } else {
        SlotCons(t[0], NotOlder(t[1..], before));
        if UniqueKeys(t) {
          assert UniqueKeys(t[1..]);
          var u := NotOlder(t, before);
          forall j | 0 < j < |u| ensures u[0].ts != u[j].ts || u[0].key != u[j].key {
            assert u[j] == NotOlder(t[1..], before)[j - 1];
            assert HasSlot(NotOlder(t[1..], before), u[j].ts, u[j].key);
            var i :| 0 <= i < |t[1..]| && t[1..][i].ts == u[j].ts && t[1..][i].key == u[j].key;
            assert t[i + 1] == t[1..][i];
          }
        }
      }
    }
  }

  /** What a cutoff keeps and what it takes, together all rows: an older row never stays and no other one goes. */
  lemma {:induction false} CutMeans(rows: seq<Row>, before: int)
    ensures forall r :: r in NotOlder(rows, before) ==> r.ts >= before
    ensures forall r :: r in Older(rows, before) ==> r.ts < before
    ensures multiset(rows) == multiset(Older(rows, before)) + multiset(NotOlder(rows, before))
  {
    if rows != [] {
      CutMeans(rows[1..], before);
      assert rows == [rows[0]] + rows[1..];
    }
  }
}
