/**
 The per-address counter sampler (internal/monitor/ipacct.go). nftables counts bytes
 per set element; the sampler turns what it reads into deltas. The kernel may evict
 an element, flush the table or rebuild it at any moment, also between two set reads
 of one round, and reads and reloads may fail.
 */
module IpAccounting {
  import opened Wrappers
  import opened Text
  import IpKey
  import opened Tables

  // ------------------------------------------------------------ elements and keys

  datatype SetInfo = SetInfo(name: string, inbound: bool, relayed: bool)

  const SETS: seq<SetInfo> := [
    SetInfo("peer_in4", true, false), SetInfo("peer_in6", true, false),
    SetInfo("peer_out4", false, false), SetInfo("peer_out6", false, false),
    SetInfo("relay_in4", true, true), SetInfo("relay_out4", false, true)]

  datatype Counter = Counter(address: string, port: nat, bytes: nat)

  function ElementName(address: string, port: nat): string {
    if port == 0 then address else address + "/" + Decimal(port)
  }

  /** The key of the previous-value map. */
  function SlotKey(info: SetInfo, address: string, port: nat): string {
    info.name + "|" + ElementName(address, port)
  }

  lemma SetNames(i: nat, j: nat)
    requires i < |SETS| && j < |SETS|
    ensures '|' !in SETS[i].name
    ensures SETS[i].name == SETS[j].name ==> i == j
  {
    assert SETS[0].name[5] == 'i' && SETS[1].name[5] == 'i' && SETS[2].name[5] == 'o' && SETS[3].name[5] == 'o';
    assert SETS[0].name[7] == '4' && SETS[1].name[7] == '6' && SETS[2].name[8] == '4' && SETS[3].name[8] == '6';
    assert SETS[4].name[0] == 'r' && SETS[5].name[0] == 'r' && SETS[4].name[6] == 'i' && SETS[5].name[6] == 'o';
    assert |SETS[0].name| == 8 && |SETS[1].name| == 8 && |SETS[2].name| == 9 && |SETS[3].name| == 9;
    assert |SETS[4].name| == 9 && |SETS[5].name| == 10;
  }

  /** Elements of different sets never share a slot. */
  lemma SlotsOfSetsDiffer(i: nat, j: nat, a: string, p: nat, b: string, q: nat)
    requires i < |SETS| && j < |SETS| && SlotKey(SETS[i], a, p) == SlotKey(SETS[j], b, q)
    ensures i == j
  {
    SetNames(i, j);
    SetNames(j, i);
    IpKey.CutFirst(SETS[i].name, '|', ElementName(a, p));
    IpKey.CutFirst(SETS[j].name, '|', ElementName(b, q));
  }

  /** Within a set two elements share a slot only if they are the same: a port is never mistaken for part of an address. */
  lemma SlotInjective(s: SetInfo, a: string, p: nat, b: string, q: nat)
    requires '/' !in a && '/' !in b && SlotKey(s, a, p) == SlotKey(s, b, q)
    ensures a == b && p == q
  {
    var x, y := ElementName(a, p), ElementName(b, q);
    assert SlotKey(s, a, p)[|s.name| + 1..] == x && SlotKey(s, b, q)[|s.name| + 1..] == y;
    if p > 0 { IpKey.CutFirst(a, '/', Decimal(p)); } else { IpKey.CutMeans(a, '/'); }
    if q > 0 { IpKey.CutFirst(b, '/', Decimal(q)); } else { IpKey.CutMeans(b, '/'); }
    if p > 0 && q > 0 { DecimalInjective(p, q); }
  }

  // ------------------------------------------------------------ what a round computes

  function Get(m: map<string, nat>, k: string): nat {
    if k in m then m[k] else 0
  }

  /** A counter that moved backwards restarted from zero. */
  function CounterDelta(previous: nat, current: nat): nat {
    if current >= previous then current - previous else current
  }

  /** One counter's contribution to a round. */
  datatype Item = Item(slot: string, account: string, inbound: bool, delta: nat)

  function AccountKey(s: SetInfo, c: Counter, landings: map<nat, string>): string {
    IpKey.Encode(c.address, if c.port in landings then landings[c.port] else "", s.relayed)
  }

  function ItemOf(previous: map<string, nat>, s: SetInfo, c: Counter, landings: map<nat, string>): Item {
    var slot := SlotKey(s, c.address, c.port);
    Item(slot, AccountKey(s, c, landings), s.inbound, CounterDelta(Get(previous, slot), c.bytes))
  }

  function SetItems(previous: map<string, nat>, s: SetInfo, counters: seq<Counter>, landings: map<nat, string>): seq<Item> {
    seq(|counters|, i requires 0 <= i < |counters| => ItemOf(previous, s, counters[i], landings))
  }

  function Noted(earlier: map<string, nat>, s: SetInfo, counters: seq<Counter>): map<string, nat> {
    if counters == [] then earlier
    else
      var last := counters[|counters| - 1];
      Noted(earlier, s, counters[..|counters| - 1])[SlotKey(s, last.address, last.port) := last.bytes]
  }

  /** The first n set listings of a round. */
  type Listings = seq<Option<seq<Counter>>>

  predicate AllRead(listings: Listings) {
    forall i :: 0 <= i < |listings| ==> listings[i].Some?
  }

  function Items(previous: map<string, nat>, listings: Listings, n: nat, landings: map<nat, string>): seq<Item>
    requires n <= |listings| == |SETS| && AllRead(listings[..n])
  {
    if n == 0 then []
    else
      assert listings[..n][n - 1] == listings[n - 1];
      assert AllRead(listings[..n - 1]) by { assert forall i :: 0 <= i < n - 1 ==> listings[..n - 1][i] == listings[..n][i]; }
      Items(previous, listings, n - 1, landings) + SetItems(previous, SETS[n - 1], listings[n - 1].value, landings)
  }

  function NewPrevious(listings: Listings, n: nat): map<string, nat>
    requires n <= |listings| == |SETS| && AllRead(listings[..n])
  {
    if n == 0 then map[]
    else
      assert listings[..n][n - 1] == listings[n - 1];
      assert AllRead(listings[..n - 1]) by { assert forall i :: 0 <= i < n - 1 ==> listings[..n - 1][i] == listings[..n][i]; }
      Noted(NewPrevious(listings, n - 1), SETS[n - 1], listings[n - 1].value)
  }

  lemma NotAllRead(listings: Listings, n: nat)
    requires n < |listings| && listings[n].None?
    ensures !AllRead(listings)
  {
  }

  /** One more set has been read. */
  lemma SetRead(previous: map<string, nat>, listings: Listings, n: nat, landings: map<nat, string>)
    requires n < |listings| == |SETS| && AllRead(listings[..n]) && listings[n].Some?
    ensures AllRead(listings[..n + 1])
    ensures NewPrevious(listings, n + 1) == Noted(NewPrevious(listings, n), SETS[n], listings[n].value)
    ensures Items(previous, listings, n + 1, landings)
         == Items(previous, listings, n, landings) + SetItems(previous, SETS[n], listings[n].value, landings)
  {
    hide Noted, SetItems;
    assert forall i :: 0 <= i < n ==> listings[..n + 1][i] == listings[..n][i];
  }

  datatype Sampler = Sampler(loaded: bool, applied: string, previous: map<string, nat>)

  /** Collect once its ruleset is in place: every set read, or the round is given up and the table rebuilt next time. */
  function Sampled(s: Sampler, listings: Listings, landings: map<nat, string>): (Sampler, Option<seq<Item>>)
    requires |listings| == |SETS|
  {
    if AllRead(listings) then
      assert listings[..|listings|] == listings;
      (s.(previous := NewPrevious(listings, |SETS|)), Some(Items(s.previous, listings, |SETS|, landings)))
    else (s.(loaded := false, previous := map[]), None)
  }

  predicate NeedsInstall(s: Sampler, ruleset: string) {
    !s.loaded || ruleset != s.applied
  }

  // ------------------------------------------------------------ grouping

  function Part(i: Item, d: Direction): int {
    if d.Both? || d.In? == i.inbound then i.delta else 0
  }

  function Credited(items: seq<Item>, account: string, d: Direction): int {
    if items == [] then 0
    else
      var i := items[|items| - 1];
      Credited(items[..|items| - 1], account, d) + if i.account == account then Part(i, d) else 0
  }

  function Moved(items: seq<Item>, d: Direction): int {
    if items == [] then 0 else Moved(items[..|items| - 1], d) + Part(items[|items| - 1], d)
  }

  function Entry(deltas: map<string, Bytes>, account: string): Bytes {
    if account in deltas then deltas[account] else Bytes(0, 0)
  }

  ghost predicate Groups(deltas: map<string, Bytes>, items: seq<Item>) {
    && (forall a: string, d: Direction :: Amount(Entry(deltas, a), d) == Credited(items, a, d))
    && (forall a: string :: a in deltas <==> exists i :: 0 <= i < |items| && items[i].account == a && items[i].delta > 0)
  }

  ghost function Total(deltas: map<string, Bytes>, d: Direction): int
    decreases |deltas|
  {
    if deltas == map[] then 0
    else
      var k :| k in deltas;
      Amount(deltas[k], d) + Total(deltas - {k}, d)
  }

  lemma {:induction false} TotalWithout(m: map<string, Bytes>, k: string, d: Direction)
    requires k in m
    ensures Total(m, d) == Amount(m[k], d) + Total(m - {k}, d)
    decreases |m|
  {
    var j :| j in m && Total(m, d) == Amount(m[j], d) + Total(m - {j}, d);
    if j != k {
      TotalWithout(m - {j}, k, d);
      TotalWithout(m - {k}, j, d);
      assert m - {j} - {k} == m - {k} - {j};
    }
  }

  lemma {:induction false} CreditedAbove(items: seq<Item>, a: string, d: Direction)
    ensures Credited(items, a, d) >= 0
    ensures (forall i :: 0 <= i < |items| ==> items[i].account != a || items[i].delta == 0) ==> Credited(items, a, d) == 0
  {
    if items != [] {
      CreditedAbove(items[..|items| - 1], a, d);
    }
  }

  function Without(items: seq<Item>, a: string): seq<Item> {
    if items == [] then []
    else
      var rest := Without(items[..|items| - 1], a);
      if items[|items| - 1].account == a then rest else rest + [items[|items| - 1]]
  }

  lemma {:induction false} MovedWithout(items: seq<Item>, a: string, d: Direction)
    ensures Moved(items, d) == Moved(Without(items, a), d) + Credited(items, a, d)
  {
    if items != [] {
      hide Part;
      var prefix, last := items[..|items| - 1], items[|items| - 1];
      MovedWithout(prefix, a, d);
      if last.account != a {
        assert (Without(prefix, a) + [last])[..|Without(prefix, a)|] == Without(prefix, a);
      }
    }
  }

  lemma CreditedPush(items: seq<Item>, i: Item, b: string, d: Direction)
    ensures Credited(items + [i], b, d) == Credited(items, b, d) + if i.account == b then Part(i, d) else 0
  {
    assert (items + [i])[..|items|] == items;
  }

  lemma {:induction false} CreditedWithout(items: seq<Item>, a: string, b: string, d: Direction)
    ensures Credited(Without(items, a), b, d) == if b == a then 0 else Credited(items, b, d)
  {
    if items != [] {
      var prefix, last := items[..|items| - 1], items[|items| - 1];
      CreditedWithout(prefix, a, b, d);
      if last.account != a {
        CreditedPush(Without(prefix, a), last, b, d);
      }
      assert Credited(items, b, d) == Credited(prefix, b, d) + if last.account == b then Part(last, d) else 0;
    }
  }

  /** Grouping by accounting key conserves each direction's total, whatever the keys are. */
  lemma {:induction false} GroupingConserves(deltas: map<string, Bytes>, items: seq<Item>, d: Direction)
    requires forall a: string :: Amount(Entry(deltas, a), d) == Credited(items, a, d)
    ensures Total(deltas, d) == Moved(items, d)
    decreases |deltas|
  {
    if deltas == map[] {
      NothingCredited(items, d);
    } else {
      var k :| k in deltas;
      var rest := Without(items, k);
      TotalWithout(deltas, k, d);
      MovedWithout(items, k, d);
      forall a: string ensures Amount(Entry(deltas - {k}, a), d) == Credited(rest, a, d) {
        CreditedWithout(items, k, a, d);
      }
      GroupingConserves(deltas - {k}, rest, d);
    }
  }

  lemma {:induction false} NothingCredited(items: seq<Item>, d: Direction)
    requires forall a: string :: Credited(items, a, d) == 0
    ensures Moved(items, d) == 0
  {
    if items != [] {
      var prefix, last := items[..|items| - 1], items[|items| - 1];
      forall a: string ensures Credited(prefix, a, d) == 0 {
        CreditedAbove(prefix, a, d);
        assert Credited(items, a, d) == 0;
      }
      assert Credited(items, last.account, d) == Credited(prefix, last.account, d) + Part(last, d);
      NothingCredited(prefix, d);
      assert Moved(items, d) == Moved(prefix, d) + Part(last, d);
    }
  }

  /** Adding one item to the entry of its account keeps the deltas grouped. */
  lemma GroupsStep(deltas: map<string, Bytes>, items: seq<Item>, i: Item)
    requires Groups(deltas, items)
    ensures i.delta == 0 ==> Groups(deltas, items + [i])
    ensures i.delta > 0 ==> Groups(deltas[i.account := Credit(Entry(deltas, i.account), i.inbound, i.delta)], items + [i])
  {
    var more := items + [i];
    assert more[..|more| - 1] == items;
    var grown := if i.delta == 0 then deltas else deltas[i.account := Credit(Entry(deltas, i.account), i.inbound, i.delta)];
    forall a: string, d: Direction ensures Amount(Entry(grown, a), d) == Credited(more, a, d) {
      assert Amount(Entry(deltas, a), d) == Credited(items, a, d);
    }
    forall a: string
      ensures a in grown <==> exists j :: 0 <= j < |more| && more[j].account == a && more[j].delta > 0
    {
      if j :| 0 <= j < |items| && items[j].account == a && items[j].delta > 0 {
        assert more[j] == items[j];
      }
      if j :| 0 <= j < |more| && more[j].account == a && more[j].delta > 0 {
        assert j < |items| ==> items[j] == more[j];
        assert j == |items| ==> more[j] == i;
      }
      assert more[|items|] == i;
    }
    assert Groups(grown, more);
  }

  function Credit(entry: Bytes, inbound: bool, delta: nat): Bytes {
    if inbound then entry.(inb := entry.inb + delta) else entry.(outb := entry.outb + delta)
  }

  // ------------------------------------------------------------ one element over a whole run

  /** One element of one set. */
  datatype Element = Element(home: nat, address: string, port: nat)

  ghost predicate Proper(e: Element) {
    e.home < |SETS| && '/' !in e.address
  }

  function Key(e: Element): string
    requires e.home < |SETS|
  {
    SlotKey(SETS[e.home], e.address, e.port)
  }

  /** The kernel's side of one element: its counter now, and every byte ever counted for it. */
  datatype Kernel = Kernel(table: bool, current: nat, counted: nat)

  datatype KernelEvent = Count(bytes: nat) | Evict | Flush

  function Strike(k: Kernel, e: KernelEvent): Kernel {
    match e
    case Count(n) => if k.table then k.(current := k.current + n, counted := k.counted + n) else k
    case Evict => k.(current := 0)
    case Flush => k.(table := false, current := 0)
  }

  function After(k: Kernel, events: seq<KernelEvent>): Kernel {
    if events == [] then k else Strike(After(k, events[..|events| - 1]), events[|events| - 1])
  }

  datatype Fate = Works | Fails | WorksButFails

  datatype State = State(sampler: Sampler, kernel: Kernel, delivered: nat)

  /** gaps[i] is what the kernel does just before set i is read. */
  datatype Event =
    | InKernel(event: KernelEvent)
    | Round(ruleset: string, landings: map<nat, string>, reload: Fate, gaps: seq<seq<KernelEvent>>, listings: Listings)
    | Remove(deletion: Fate)

  function KernelAt(k: Kernel, gaps: seq<seq<KernelEvent>>, n: nat): Kernel
    requires n <= |gaps|
  {
    if n == 0 then k else After(KernelAt(k, gaps, n - 1), gaps[n - 1])
  }

  function Rebuilt(k: Kernel): Kernel {
    k.(table := true, current := 0)
  }

  function Installed(s: State, ruleset: string, reload: Fate): State {
    if !NeedsInstall(s.sampler, ruleset) then s
    else match reload
      case Works => s.(sampler := Sampler(true, ruleset, map[]), kernel := Rebuilt(s.kernel))
      case Fails => s
      case WorksButFails => s.(kernel := Rebuilt(s.kernel))
  }

  predicate RoundStarts(s: State, ruleset: string, reload: Fate) {
    NeedsInstall(s.sampler, ruleset) ==> reload == Works
  }

  function Gained(items: seq<Item>, slot: string): nat {
    if items == [] then 0
    else
      var i := items[|items| - 1];
      Gained(items[..|items| - 1], slot) + if i.slot == slot then i.delta else 0
  }

  function Step(s: State, e: Element, event: Event): State
    requires e.home < |SETS|
    requires event.Round? ==> |event.gaps| == |event.listings| == |SETS|
  {
    match event
    case InKernel(k) => s.(kernel := Strike(s.kernel, k))
    case Remove(deletion) =>
      if !s.sampler.loaded then s
      else
        s.(sampler := s.sampler.(loaded := false),
           kernel := if deletion == Fails then s.kernel else Strike(s.kernel, Flush))
    case Round(ruleset, landings, reload, gaps, listings) =>
      var s1 := Installed(s, ruleset, reload);
      if !RoundStarts(s, ruleset, reload) then s1
      else
        var (sampler, items) := Sampled(s1.sampler, listings, landings);
        State(sampler, KernelAt(s1.kernel, gaps, |SETS|),
              s1.delivered + if items.Some? then Gained(items.value, Key(e)) else 0)
  }

  ghost predicate DistinctCounters(counters: seq<Counter>) {
    forall i, j :: 0 <= i < j < |counters| ==> counters[i].address != counters[j].address || counters[i].port != counters[j].port
  }

  /** A set's listing is a set of elements, and shows our element with its counter unless that is zero or gone. */
  ghost predicate Reports(counters: seq<Counter>, e: Element, current: nat) {
    && DistinctCounters(counters)
    && (forall i :: 0 <= i < |counters| ==> '/' !in counters[i].address)
    && (forall i :: 0 <= i < |counters| ==>
          counters[i].address == e.address && counters[i].port == e.port ==> counters[i].bytes == current)
    && (current > 0 ==> exists i :: 0 <= i < |counters| && counters[i] == Counter(e.address, e.port, current))
  }

  ghost predicate Truthful(s: State, e: Element, event: Event)
    requires e.home < |SETS|
  {
    event.Round? ==>
      && |event.gaps| == |event.listings| == |SETS|
      && (event.listings[e.home].Some? ==>
            Reports(event.listings[e.home].value, e,
                    KernelAt(Installed(s, event.ruleset, event.reload).kernel, event.gaps, e.home + 1).current))
  }

  ghost predicate Possible(s: State, e: Element, events: seq<Event>)
    requires e.home < |SETS|
    decreases events
  {
    events == [] ||
    (Truthful(s, e, events[0]) && Possible(Step(s, e, events[0]), e, events[1..]))
  }

  function Run(s: State, e: Element, events: seq<Event>): State
    requires e.home < |SETS| && Possible(s, e, events)
    decreases events
  {
    if events == [] then s else Run(Step(s, e, events[0]), e, events[1..])
  }

  const INITIAL: State := State(Sampler(false, "", map[]), Kernel(false, 0, 0), 0)

  // What a successful round does to one element.

  lemma {:induction false} GainedAppend(a: seq<Item>, b: seq<Item>, slot: string)
    ensures Gained(a + b, slot) == Gained(a, slot) + Gained(b, slot)
  {
    if b == [] {
      assert a + b == a;
    } else {
      assert (a + b)[..|a + b| - 1] == a + b[..|b| - 1];
      GainedAppend(a, b[..|b| - 1], slot);
    }
  }

  lemma {:induction false} GainedNothing(items: seq<Item>, slot: string)
    requires forall i :: 0 <= i < |items| ==> items[i].slot != slot
    ensures Gained(items, slot) == 0
  {
    if items != [] {
      GainedNothing(items[..|items| - 1], slot);
    }
  }

  lemma {:induction false} GainedOnce(items: seq<Item>, slot: string, at: nat)
    requires at < |items| && items[at].slot == slot
    requires forall i :: 0 <= i < |items| && i != at ==> items[i].slot != slot
    ensures Gained(items, slot) == items[at].delta
  {
    if at == |items| - 1 {
      GainedNothing(items[..at], slot);
    } else {
      GainedOnce(items[..|items| - 1], slot, at);
    }
  }

  lemma {:induction false} NotedElsewhere(earlier: map<string, nat>, s: SetInfo, counters: seq<Counter>, slot: string)
    requires forall i :: 0 <= i < |counters| ==> SlotKey(s, counters[i].address, counters[i].port) != slot
    ensures Get(Noted(earlier, s, counters), slot) == Get(earlier, slot)
  {
    if counters != [] {
      NotedElsewhere(earlier, s, counters[..|counters| - 1], slot);
    }
  }

  lemma {:induction false} NotedOnce(earlier: map<string, nat>, s: SetInfo, counters: seq<Counter>, slot: string, at: nat)
    requires at < |counters| && SlotKey(s, counters[at].address, counters[at].port) == slot
    requires forall i :: 0 <= i < |counters| && i != at ==> SlotKey(s, counters[i].address, counters[i].port) != slot
    ensures Get(Noted(earlier, s, counters), slot) == counters[at].bytes
  {
    if at != |counters| - 1 {
      NotedOnce(earlier, s, counters[..|counters| - 1], slot, at);
    }
  }

  /** Reading the element's own set. */
  lemma HomeSetRead(previous: map<string, nat>, earlier: map<string, nat>, e: Element, counters: seq<Counter>,
                    landings: map<nat, string>, current: nat)
    requires Proper(e) && Reports(counters, e, current)
    requires Get(earlier, Key(e)) == 0
    ensures Gained(SetItems(previous, SETS[e.home], counters, landings), Key(e)) == CounterDelta(Get(previous, Key(e)), current)
    ensures Get(Noted(earlier, SETS[e.home], counters), Key(e)) == current
  {
    hide SlotKey, AccountKey;
    var s := SETS[e.home];
    var items := SetItems(previous, s, counters, landings);
    forall i | 0 <= i < |counters| && SlotKey(s, counters[i].address, counters[i].port) == Key(e)
      ensures counters[i] == Counter(e.address, e.port, current)
    {
      SlotInjective(s, counters[i].address, counters[i].port, e.address, e.port);
    }
    if at :| 0 <= at < |counters| && SlotKey(s, counters[at].address, counters[at].port) == Key(e) {
      forall i | 0 <= i < |counters| && i != at ensures SlotKey(s, counters[i].address, counters[i].port) != Key(e) {
        assert i < at || at < i;
      }
      GainedOnce(items, Key(e), at);
      NotedOnce(earlier, s, counters, Key(e), at);
    } else {
      assert current == 0;
      GainedNothing(items, Key(e));
      NotedElsewhere(earlier, s, counters, Key(e));
    }
  }

  /** Reading any other set. */
  lemma OtherSetRead(previous: map<string, nat>, earlier: map<string, nat>, e: Element, other: nat, counters: seq<Counter>,
                     landings: map<nat, string>)
    requires Proper(e) && other < |SETS| && other != e.home
    ensures Gained(SetItems(previous, SETS[other], counters, landings), Key(e)) == 0
    ensures Get(Noted(earlier, SETS[other], counters), Key(e)) == Get(earlier, Key(e))
  {
    forall i | 0 <= i < |counters| ensures SlotKey(SETS[other], counters[i].address, counters[i].port) != Key(e) {
      if SlotKey(SETS[other], counters[i].address, counters[i].port) == Key(e) {
        SlotsOfSetsDiffer(other, e.home, counters[i].address, counters[i].port, e.address, e.port);
      }
    }
    GainedNothing(SetItems(previous, SETS[other], counters, landings), Key(e));
    NotedElsewhere(earlier, SETS[other], counters, Key(e));
  }

  /** A full round hands out exactly one delta for the element and notes the counter it came from. */
  lemma {:induction false} ElementInRound(previous: map<string, nat>, e: Element, listings: Listings, n: nat,
                                          landings: map<nat, string>, current: nat)
    requires Proper(e) && n <= |listings| == |SETS| && AllRead(listings)
    requires Reports(listings[e.home].value, e, current)
    ensures AllRead(listings[..n])
    ensures Gained(Items(previous, listings, n, landings), Key(e)) == if e.home < n then CounterDelta(Get(previous, Key(e)), current) else 0
    ensures Get(NewPrevious(listings, n), Key(e)) == if e.home < n then current else 0
  {
    hide Key, Reports, SetItems, Noted;
    if n > 0 {
      ElementInRound(previous, e, listings, n - 1, landings, current);
      GainedAppend(Items(previous, listings, n - 1, landings),
                   SetItems(previous, SETS[n - 1], listings[n - 1].value, landings), Key(e));
      if e.home == n - 1 {
        HomeSetRead(previous, NewPrevious(listings, n - 1), e, listings[n - 1].value, landings, current);
      } else {
        OtherSetRead(previous, NewPrevious(listings, n - 1), e, n - 1, listings[n - 1].value, landings);
      }
    }
  }

  // Safety: never more than was counted.

  function Noticed(s: State, e: Element): nat
    requires e.home < |SETS|
  {
    Get(s.sampler.previous, Key(e))
  }

  /** What has been handed out, plus what the next read would hand out, is covered by what was counted. */
  ghost predicate Covered(delivered: nat, previous: nat, k: Kernel) {
    delivered + CounterDelta(previous, k.current) <= k.counted
  }

  ghost predicate Safe(s: State, e: Element)
    requires e.home < |SETS|
  {
    && s.delivered <= s.kernel.counted
    && (s.sampler.loaded ==> Covered(s.delivered, Noticed(s, e), s.kernel))
  }

  lemma StrikeCovers(delivered: nat, previous: nat, k: Kernel, event: KernelEvent)
    ensures Covered(delivered, previous, k) ==> Covered(delivered, previous, Strike(k, event))
    ensures delivered <= k.counted ==> delivered <= Strike(k, event).counted
  {
  }

  lemma {:induction false} AfterCovers(delivered: nat, previous: nat, k: Kernel, events: seq<KernelEvent>)
    ensures Covered(delivered, previous, k) ==> Covered(delivered, previous, After(k, events))
    ensures delivered <= k.counted ==> delivered <= After(k, events).counted
  {
    if events != [] {
      AfterCovers(delivered, previous, k, events[..|events| - 1]);
      StrikeCovers(delivered, previous, After(k, events[..|events| - 1]), events[|events| - 1]);
    }
  }

  lemma {:induction false} GapsCover(delivered: nat, previous: nat, k: Kernel, gaps: seq<seq<KernelEvent>>, from: nat, to: nat)
    requires from <= to <= |gaps|
    ensures Covered(delivered, previous, KernelAt(k, gaps, from)) ==> Covered(delivered, previous, KernelAt(k, gaps, to))
    ensures delivered <= KernelAt(k, gaps, from).counted ==> delivered <= KernelAt(k, gaps, to).counted
  {
    if from < to {
      GapsCover(delivered, previous, k, gaps, from, to - 1);
      AfterCovers(delivered, previous, KernelAt(k, gaps, to - 1), gaps[to - 1]);
    }
  }

  lemma InstalledSafe(s: State, e: Element, ruleset: string, reload: Fate)
    requires e.home < |SETS| && Safe(s, e)
    ensures Safe(Installed(s, ruleset, reload), e)
    ensures RoundStarts(s, ruleset, reload) ==> Installed(s, ruleset, reload).sampler.loaded
  {
  }

  lemma RoundSafe(s: State, e: Element, event: Event)
    requires Proper(e) && event.Round? && Truthful(s, e, event) && Safe(s, e)
    ensures Safe(Step(s, e, event), e)
  {
    hide Reports, Key, Items, NewPrevious, After, NeedsInstall;
    InstalledSafe(s, e, event.ruleset, event.reload);
    if RoundStarts(s, event.ruleset, event.reload) {
      var s1 := Installed(s, event.ruleset, event.reload);
      var previous, read := Noticed(s1, e), KernelAt(s1.kernel, event.gaps, e.home + 1);
      assert KernelAt(s1.kernel, event.gaps, 0) == s1.kernel;
      GapsCover(s1.delivered, previous, s1.kernel, event.gaps, 0, |SETS|);
      if AllRead(event.listings) {
        GapsCover(s1.delivered, previous, s1.kernel, event.gaps, 0, e.home + 1);
        ElementInRound(s1.sampler.previous, e, event.listings, |SETS|, event.landings, read.current);
        GapsCover(s1.delivered + CounterDelta(previous, read.current), read.current, s1.kernel, event.gaps, e.home + 1, |SETS|);
      }
    }
  }

  /**
   However often elements are evicted, the table flushed or rebuilt, reads or reloads
   fail, and whatever is counted between two reads of a round: the deltas handed out for
   an element never add up to more than the kernel counted for it.
   */
  lemma {:induction false} NeverOvercounts(s: State, e: Element, events: seq<Event>)
    requires Proper(e) && Safe(s, e) && Possible(s, e, events)
    ensures Safe(Run(s, e, events), e)
    ensures Run(s, e, events).delivered <= Run(s, e, events).kernel.counted
    decreases events
  {
    if events != [] {
      hide Safe, Truthful, Key;
      var event := events[0];
      assert Safe(Step(s, e, event), e) by {
        match event
        case Round(_, _, _, _, _) => RoundSafe(s, e, event);
        case InKernel(k) => KernelSafe(s, e, k);
        case Remove(deletion) => RemoveSafe(s, e, deletion);
      }
      NeverOvercounts(Step(s, e, event), e, events[1..]);
    }
  }

  lemma KernelSafe(s: State, e: Element, k: KernelEvent)
    requires e.home < |SETS| && Safe(s, e)
    ensures Safe(Step(s, e, InKernel(k)), e)
  {
    hide Key;
    StrikeCovers(s.delivered, Noticed(s, e), s.kernel, k);
  }

  lemma RemoveSafe(s: State, e: Element, deletion: Fate)
    requires e.home < |SETS| && Safe(s, e)
    ensures Safe(Step(s, e, Remove(deletion)), e)
  {
    hide Key;
  }

  // Exactness: nothing lost either while nothing goes wrong.

  predicate OnlyCounts(events: seq<KernelEvent>) {
    forall i :: 0 <= i < |events| ==> events[i].Count?
  }

  predicate Calm(event: Event, ruleset: string) {
    match event
    case InKernel(k) => k.Count?
    case Remove(_) => false
    case Round(rules, _, reload, gaps, listings) =>
      && rules == ruleset && reload == Works && AllRead(listings)
      && forall i :: 0 <= i < |gaps| ==> OnlyCounts(gaps[i])
  }

  /** Between two events the kernel may count, a round finds its table in place and every set readable. */
  lemma CalmMeans(event: Event, ruleset: string)
    ensures Calm(event, ruleset) <==>
      || (event.InKernel? && event.event.Count?)
      || (event.Round? && event.ruleset == ruleset && event.reload == Works
          && (forall i :: 0 <= i < |event.listings| ==> event.listings[i].Some?)
          && forall i, j :: 0 <= i < |event.gaps| && 0 <= j < |event.gaps[i]| ==> event.gaps[i][j].Count?)
  {
  }

  /** Bytes counted but neither handed out nor still to be handed out. */
  function Lost(s: State, e: Element): int
    requires e.home < |SETS|
  {
    s.kernel.counted - s.delivered - (s.kernel.current - Noticed(s, e))
  }

  /** The table is up under this ruleset and the counter has not moved backwards. */
  ghost predicate Tracking(s: State, e: Element, ruleset: string)
    requires e.home < |SETS|
  {
    s.sampler.loaded && s.sampler.applied == ruleset && s.kernel.table && Noticed(s, e) <= s.kernel.current
  }

  lemma {:induction false} CountsOnly(k: Kernel, events: seq<KernelEvent>)
    requires OnlyCounts(events)
    ensures var k' := After(k, events);
      k'.table == k.table && k'.current >= k.current && k'.counted - k'.current == k.counted - k.current
  {
    if events != [] {
      CountsOnly(k, events[..|events| - 1]);
    }
  }

  lemma {:induction false} GapsOnlyCount(k: Kernel, gaps: seq<seq<KernelEvent>>, from: nat, to: nat)
    requires from <= to <= |gaps|
    requires forall i :: 0 <= i < |gaps| ==> OnlyCounts(gaps[i])
    ensures var a, b := KernelAt(k, gaps, from), KernelAt(k, gaps, to);
      b.table == a.table && b.current >= a.current && b.counted - b.current == a.counted - a.current
  {
    if from < to {
      GapsOnlyCount(k, gaps, from, to - 1);
      CountsOnly(KernelAt(k, gaps, to - 1), gaps[to - 1]);
    }
  }

  lemma CalmStep(s: State, e: Element, ruleset: string, event: Event)
    requires Proper(e) && Tracking(s, e, ruleset) && Calm(event, ruleset) && Truthful(s, e, event)
    ensures Tracking(Step(s, e, event), e, ruleset)
    ensures Lost(Step(s, e, event), e) == Lost(s, e)
  {
    hide Reports, Key, Items, NewPrevious, After, OnlyCounts;
    if event.Round? {
      var k := s.kernel;
      assert Installed(s, ruleset, event.reload) == s;
      assert KernelAt(k, event.gaps, 0) == k;
      GapsOnlyCount(k, event.gaps, 0, e.home + 1);
      GapsOnlyCount(k, event.gaps, e.home + 1, |SETS|);
      ElementInRound(s.sampler.previous, e, event.listings, |SETS|, event.landings, KernelAt(k, event.gaps, e.home + 1).current);
    }
  }

  /** Through any calm stretch, from any tracking state, not one byte more is lost. */
  lemma {:induction false} CalmLosesNothing(s: State, e: Element, ruleset: string, events: seq<Event>)
    requires Proper(e) && Tracking(s, e, ruleset) && Possible(s, e, events)
    requires forall i :: 0 <= i < |events| ==> Calm(events[i], ruleset)
    ensures Tracking(Run(s, e, events), e, ruleset)
    ensures Lost(Run(s, e, events), e) == Lost(s, e)
    decreases events
  {
    if events != [] {
      hide Tracking, Truthful, Key, Calm, Lost;
      CalmStep(s, e, ruleset, events[0]);
      CalmLosesNothing(Step(s, e, events[0]), e, ruleset, events[1..]);
    }
  }

  /** The first round of a fresh process installs the table; what it then counts is delivered exactly. */
  lemma FreshTableTracks(e: Element, event: Event)
    requires Proper(e) && event.Round? && Calm(event, event.ruleset) && Truthful(INITIAL, e, event)
    ensures Tracking(Step(INITIAL, e, event), e, event.ruleset)
    ensures Lost(Step(INITIAL, e, event), e) == 0
  {
    hide Reports, Key, Items, NewPrevious, After, OnlyCounts;
    var s1 := Installed(INITIAL, event.ruleset, event.reload);
    assert Step(INITIAL, e, event) == Step(s1, e, event);
    assert Installed(s1, event.ruleset, event.reload) == s1;
    CalmStep(s1, e, event.ruleset, event);
  }

  /** When no set's counters move between its read and the end of the round, delivered equals counted. */
  lemma ExactAfterQuietRound(e: Element, first: Event, events: seq<Event>, last: Event)
    requires Proper(e) && first.Round? && last.Round? && Possible(INITIAL, e, [first] + events + [last])
    requires Calm(first, first.ruleset) && Calm(last, first.ruleset)
    requires forall i :: 0 <= i < |events| ==> Calm(events[i], first.ruleset)
    requires forall i :: 0 <= i < |last.gaps| ==> last.gaps[i] == []
    ensures var s := Run(INITIAL, e, [first] + events + [last]); s.delivered == s.kernel.counted
  {
    assert e.home < |SETS|;
    hide *;
    assert [first] + events + [last] == [first] + (events + [last]);
    PossibleHead(INITIAL, e, first, events + [last]);
    FreshTableTracks(e, first);
    var s0 := Step(INITIAL, e, first);
    PossibleSplit(s0, e, events, last);
    CalmLosesNothing(s0, e, first.ruleset, events);
    QuietRound(Run(s0, e, events), e, first.ruleset, last);
  }

  lemma PossibleHead(s: State, e: Element, first: Event, rest: seq<Event>)
    requires e.home < |SETS| && Possible(s, e, [first] + rest)
    ensures first.Round? ==> |first.gaps| == |first.listings| == |SETS|
    ensures Truthful(s, e, first) && Possible(Step(s, e, first), e, rest)
    ensures Run(s, e, [first] + rest) == Run(Step(s, e, first), e, rest)
  {
    hide Step, Reports, KernelAt, Installed, Key;
    assert ([first] + rest)[0] == first && ([first] + rest)[1..] == rest;
  }

  lemma {:induction false} PossibleSplit(s: State, e: Element, events: seq<Event>, last: Event)
    requires e.home < |SETS| && Possible(s, e, events + [last])
    ensures last.Round? ==> |last.gaps| == |last.listings| == |SETS|
    ensures Possible(s, e, events) && Truthful(Run(s, e, events), e, last)
    ensures Run(s, e, events + [last]) == Step(Run(s, e, events), e, last)
    decreases events
  {
    hide Step, Reports;
    var all := events + [last];
    if events == [] {
      assert all == [last] && all[1..] == [];
    } else {
      assert all[0] == events[0] && all[1..] == events[1..] + [last];
      PossibleSplit(Step(s, e, events[0]), e, events[1..], last);
    }
  }

  lemma {:induction false} StillGaps(k: Kernel, gaps: seq<seq<KernelEvent>>, n: nat)
    requires n <= |gaps| && forall i :: 0 <= i < |gaps| ==> gaps[i] == []
    ensures KernelAt(k, gaps, n) == k
  {
    if n > 0 {
      StillGaps(k, gaps, n - 1);
    }
  }

  lemma QuietRound(s: State, e: Element, ruleset: string, event: Event)
    requires Proper(e) && Tracking(s, e, ruleset) && Lost(s, e) == 0
    requires event.Round? && Calm(event, ruleset) && Truthful(s, e, event)
    requires forall i :: 0 <= i < |event.gaps| ==> event.gaps[i] == []
    ensures Step(s, e, event).delivered == Step(s, e, event).kernel.counted
  {
    hide Reports, Key, Items, NewPrevious, After, OnlyCounts;
    assert Installed(s, ruleset, event.reload) == s;
    StillGaps(s.kernel, event.gaps, e.home + 1);
    StillGaps(s.kernel, event.gaps, |SETS|);
    ElementInRound(s.sampler.previous, e, event.listings, |SETS|, event.landings, s.kernel.current);
  }

  // ------------------------------------------------------------ the relay's landings

  datatype Forward = Forward(listenPort: nat, landing: string)

  predicate Claims(forwards: seq<Forward>, port: nat, landing: string) {
    exists i :: 0 <= i < |forwards| && forwards[i] == Forward(port, landing)
  }

  /** The one landing behind a port: claimed, and by nobody else. */
  ghost predicate SoleClaim(forwards: seq<Forward>, port: nat, landing: string) {
    Claims(forwards, port, landing) && forall other: string :: Claims(forwards, port, other) ==> other == landing
  }

  ghost predicate LandingsMean(forwards: seq<Forward>, landings: map<nat, string>) {
    && (forall p: nat :: p in landings <==> exists l: string :: Claims(forwards, p, l))
    && (forall p: nat, l: string :: SoleClaim(forwards, p, l) ==> p in landings && landings[p] == l)
    && (forall p: nat :: p in landings && landings[p] != "" ==> SoleClaim(forwards, p, landings[p]))
  }

  lemma ClaimsStep(forwards: seq<Forward>, f: Forward, port: nat, landing: string)
    ensures Claims(forwards + [f], port, landing) <==> Claims(forwards, port, landing) || f == Forward(port, landing)
  {
    var more := forwards + [f];
    if i :| 0 <= i < |forwards| && forwards[i] == Forward(port, landing) { assert more[i] == forwards[i]; }
    assert more[|forwards|] == f;
  }

  /** A port of one landing names it, whatever the order; a contested port names nobody. */
  method RelayLandingsByPort(forwards: seq<Forward>) returns (landings: map<nat, string>)
    ensures LandingsMean(forwards, landings)
  {
    landings := map[];
    for n := 0 to |forwards|
      invariant LandingsMean(forwards[..n], landings)
    {
      var f := forwards[n];
      ghost var before := landings;
      if f.listenPort in landings && landings[f.listenPort] != f.landing {
        landings := landings[f.listenPort := ""];
      } else {
        landings := landings[f.listenPort := f.landing];
      }
      assert forwards[..n + 1] == forwards[..n] + [f];
      LandingsStep(forwards[..n], f, before, landings);
    }
    assert forwards[..|forwards|] == forwards;
  }

  lemma LandingsStep(forwards: seq<Forward>, f: Forward, before: map<nat, string>, after: map<nat, string>)
    requires LandingsMean(forwards, before)
    requires after == before[f.listenPort :=
      if f.listenPort in before && before[f.listenPort] != f.landing then "" else f.landing]
    ensures LandingsMean(forwards + [f], after)
  {
    hide Claims;
    var more := forwards + [f];
    forall p: nat, l: string ensures Claims(more, p, l) <==> Claims(forwards, p, l) || f == Forward(p, l) {
      ClaimsStep(forwards, f, p, l);
    }
    assert Claims(more, f.listenPort, f.landing);
    forall p: nat ensures p in after <==> exists l: string :: Claims(more, p, l) {
      if l: string :| Claims(forwards, p, l) { assert Claims(more, p, l); }
    }
    forall p: nat, l: string | SoleClaim(more, p, l) ensures p in after && after[p] == l {
      if p == f.listenPort {
        assert l == f.landing;
        if p in before {
          var m: string :| Claims(forwards, p, m);
          assert Claims(more, p, m);
          assert SoleClaim(forwards, p, l);
        }
      } else {
        assert SoleClaim(forwards, p, l);
      }
    }
    forall p: nat | p in after && after[p] != "" ensures SoleClaim(more, p, after[p]) {
      if p == f.listenPort {
        if p in before {
          assert before[p] == f.landing && SoleClaim(forwards, p, f.landing);
        } else {
          assert forall m: string :: !Claims(forwards, p, m);
        }
      } else {
        assert SoleClaim(forwards, p, after[p]);
      }
    }
  }

  /** Two readings of the same job agree on what every port means, in whatever order the job is listed. */
  lemma LandingsOrderFree(forwards: seq<Forward>, again: seq<Forward>, a: map<nat, string>, b: map<nat, string>)
    requires LandingsMean(forwards, a) && LandingsMean(again, b)
    requires forall f :: f in forwards <==> f in again
    ensures a == b
  {
    forall p: nat, l: string ensures Claims(forwards, p, l) <==> Claims(again, p, l) {
      assert Forward(p, l) in forwards <==> Forward(p, l) in again;
    }
    SameMeaning(forwards, again, a, b);
  }

  lemma SameMeaning(forwards: seq<Forward>, again: seq<Forward>, a: map<nat, string>, b: map<nat, string>)
    requires LandingsMean(forwards, a) && LandingsMean(again, b)
    requires forall p: nat, l: string :: Claims(forwards, p, l) <==> Claims(again, p, l)
    ensures a == b
  {
    hide Claims;
    forall p: nat ensures p in a <==> p in b { }
    forall p: nat | p in a ensures a[p] == b[p] {
      if a[p] != "" {
        assert SoleClaim(forwards, p, a[p]);
        assert SoleClaim(again, p, a[p]);
      } else if b[p] != "" {
        assert SoleClaim(again, p, b[p]);
        assert SoleClaim(forwards, p, b[p]);
      }
    }
  }

  // ------------------------------------------------------------ who is credited, and in which direction

  /** What the names of the sets say. */
  predicate RelayedName(name: string) {
    "relay_" <= name
  }

  predicate InboundName(name: string) {
    "peer_in" <= name || "relay_in" <= name
  }

  lemma SetsMean(i: nat)
    requires i < |SETS|
    ensures SETS[i].relayed == RelayedName(SETS[i].name) && SETS[i].inbound == InboundName(SETS[i].name)
  {
    assert SETS[0].name[0] == 'p' && SETS[1].name[0] == 'p' && SETS[2].name[0] == 'p' && SETS[3].name[0] == 'p';
    assert SETS[2].name[5] == 'o' && SETS[3].name[5] == 'o' && SETS[5].name[6] == 'o' && SETS[5].name[0] == 'r';
    assert SETS[0].name == "peer_in" + "4" && SETS[1].name == "peer_in" + "6";
    assert SETS[4].name == "relay_in" + "4" && SETS[4].name == "relay_" + "in4" && SETS[5].name == "relay_" + "out4";
  }

  /** The landing node a relayed flow to the port went to; none if nobody, or more than one, claims the port. */
  ghost predicate Behind(forwards: seq<Forward>, port: nat, landing: string) {
    if landing != "" then SoleClaim(forwards, port, landing)
    else forall l: string :: SoleClaim(forwards, port, l) ==> l == ""
  }

  /** The counter of set name measures traffic with the destination an account stands for. */
  ghost predicate Measures(forwards: seq<Forward>, name: string, c: Counter, of: IpKey.Decoded) {
    && c.address == of.address && RelayedName(name) == of.relayed
    && if of.relayed then Behind(forwards, c.port, of.landing) else of.landing == ""
  }

  /** What the listed counters of one set add to a destination, in one direction. */
  ghost function OwedBySet(previous: map<string, nat>, s: SetInfo, counters: seq<Counter>, forwards: seq<Forward>,
                           of: IpKey.Decoded, d: Direction): nat
  {
    if counters == [] then 0
    else
      var c := counters[|counters| - 1];
      OwedBySet(previous, s, counters[..|counters| - 1], forwards, of, d)
      + if Measures(forwards, s.name, c, of) && (d.Both? || d.In? == InboundName(s.name))
        then CounterDelta(Get(previous, SlotKey(s, c.address, c.port)), c.bytes) else 0
  }

  ghost function Owed(previous: map<string, nat>, listings: Listings, n: nat, forwards: seq<Forward>, of: IpKey.Decoded, d: Direction): nat
    requires n <= |listings| == |SETS| && forall i :: 0 <= i < n ==> listings[i].Some?
  {
    if n == 0 then 0
    else
      Owed(previous, listings, n - 1, forwards, of, d)
      + OwedBySet(previous, SETS[n - 1], listings[n - 1].value, forwards, of, d)
  }

  /** An address no marker or separator can be confused with, as every IP address is. */
  predicate PlainAddress(address: string) {
    IpKey.SEPARATOR !in address && !(IpKey.PREFIX <= address)
  }

  ghost predicate PlainForwards(forwards: seq<Forward>) {
    forall i :: 0 <= i < |forwards| ==> IpKey.SEPARATOR !in forwards[i].landing
  }

  predicate PlainCounters(counters: seq<Counter>) {
    forall i :: 0 <= i < |counters| ==> PlainAddress(counters[i].address)
  }

  /** A destination as an account can name it. */
  predicate PlainDestination(of: IpKey.Decoded) {
    PlainAddress(of.address) && IpKey.SEPARATOR !in of.landing && (!of.relayed ==> of.landing == "")
  }

  /** Printed IP addresses are plain, and so is any destination made of one and a hexadecimal landing ID. */
  lemma AddressesArePlain(address: string, landing: string)
    requires forall i :: 0 <= i < |address| ==> address[i] in "0123456789abcdef.:"
    requires forall i :: 0 <= i < |landing| ==> landing[i] in "0123456789abcdef"
    ensures PlainAddress(address) && PlainCounters([Counter(address, 0, 0)])
    ensures PlainDestination(IpKey.Decoded(address, landing, true)) && PlainDestination(IpKey.Decoded(address, "", false))
  {
    var letters, digits := "0123456789abcdef.:", "0123456789abcdef";
    assert forall k :: 0 <= k < 18 ==> letters[k] != '|' && letters[k] != 'r';
    assert forall k :: 0 <= k < 16 ==> digits[k] != '|';
    assert IpKey.PREFIX[0] == 'r';
    assert address != "" ==> address[0] in letters && address[0] != 'r';
  }

  function AccountOf(of: IpKey.Decoded): string {
    IpKey.Encode(of.address, of.landing, of.relayed)
  }

  lemma LandingIsBehind(forwards: seq<Forward>, landings: map<nat, string>, port: nat, landing: string)
    requires LandingsMean(forwards, landings)
    ensures Behind(forwards, port, landing) <==> landing == if port in landings then landings[port] else ""
  {
    hide Claims;
    if port in landings && landings[port] != "" {
      assert SoleClaim(forwards, port, landings[port]);
    }
    forall l: string | SoleClaim(forwards, port, l) ensures port in landings && landings[port] == l { }
  }

  lemma PlainLanding(forwards: seq<Forward>, landings: map<nat, string>, port: nat)
    requires LandingsMean(forwards, landings) && PlainForwards(forwards) && port in landings
    ensures IpKey.SEPARATOR !in landings[port]
  {
    if landings[port] != "" {
      assert SoleClaim(forwards, port, landings[port]);
      assert Claims(forwards, port, landings[port]);
    }
  }

  /**
   Every counter is credited to the account that decodes to its address, to the landing
   node behind its port if its set meters relayed flows, and to nobody else's.
   */
  lemma ItemMeans(previous: map<string, nat>, i: nat, c: Counter, forwards: seq<Forward>, landings: map<nat, string>, of: IpKey.Decoded)
    requires i < |SETS| && LandingsMean(forwards, landings) && PlainForwards(forwards) && PlainAddress(c.address)
    ensures var item := ItemOf(previous, SETS[i], c, landings);
      && Measures(forwards, SETS[i].name, c, IpKey.Decode(item.account))
      && item.inbound == InboundName(SETS[i].name)
      && (PlainDestination(of) ==> (item.account == AccountOf(of) <==> Measures(forwards, SETS[i].name, c, of)))
  {
    SetsMean(i);
    var s := SETS[i];
    var landing := if c.port in landings then landings[c.port] else "";
    if c.port in landings { PlainLanding(forwards, landings, c.port); }
    hide LandingsMean, Behind, RelayedName, InboundName, SETS;
    IpKey.DecodeEncode(c.address, landing, s.relayed);
    IpKey.DecodeEncode(of.address, of.landing, of.relayed);
    LandingIsBehind(forwards, landings, c.port, landing);
    LandingIsBehind(forwards, landings, c.port, of.landing);
  }

  lemma {:induction false} CreditedJoin(a: seq<Item>, b: seq<Item>, account: string, d: Direction)
    ensures Credited(a + b, account, d) == Credited(a, account, d) + Credited(b, account, d)
  {
    if b == [] {
      assert a + b == a;
    } else {
      assert (a + b)[..|a + b| - 1] == a + b[..|b| - 1];
      CreditedJoin(a, b[..|b| - 1], account, d);
    }
  }

  lemma {:induction false} SetCredits(previous: map<string, nat>, i: nat, counters: seq<Counter>, forwards: seq<Forward>,
                                      landings: map<nat, string>, of: IpKey.Decoded, d: Direction)
    requires i < |SETS| && LandingsMean(forwards, landings) && PlainForwards(forwards) && PlainCounters(counters) && PlainDestination(of)
    ensures Credited(SetItems(previous, SETS[i], counters, landings), AccountOf(of), d)
         == OwedBySet(previous, SETS[i], counters, forwards, of, d)
  {
    hide LandingsMean, PlainForwards, PlainAddress, Measures, AccountKey, SlotKey, InboundName, AccountOf, CounterDelta, Get, PlainDestination;
    if counters != [] {
      var shorter, c := counters[..|counters| - 1], counters[|counters| - 1];
      SetCredits(previous, i, shorter, forwards, landings, of, d);
      ItemMeans(previous, i, c, forwards, landings, of);
      SetItemsPush(previous, SETS[i], counters, landings);
      hide SetItems;
      CreditedPush(SetItems(previous, SETS[i], shorter, landings), ItemOf(previous, SETS[i], c, landings), AccountOf(of), d);
    }
  }

  lemma SetItemsPush(previous: map<string, nat>, s: SetInfo, counters: seq<Counter>, landings: map<nat, string>)
    requires counters != []
    ensures SetItems(previous, s, counters, landings) ==
      SetItems(previous, s, counters[..|counters| - 1], landings) + [ItemOf(previous, s, counters[|counters| - 1], landings)]
  {
    hide ItemOf;
  }

  lemma NothingCreditedYet(previous: map<string, nat>, listings: Listings, forwards: seq<Forward>, landings: map<nat, string>,
                           of: IpKey.Decoded, d: Direction)
    requires |listings| == |SETS| && AllRead(listings[..0])
    ensures Credited(Items(previous, listings, 0, landings), AccountOf(of), d) == 0
  {
  }

  lemma {:induction false} RoundCredits(previous: map<string, nat>, listings: Listings, n: nat, forwards: seq<Forward>,
                                        landings: map<nat, string>, of: IpKey.Decoded, d: Direction)
    requires n <= |listings| == |SETS| && AllRead(listings[..n])
    requires forall i :: 0 <= i < n ==> listings[i].Some? && PlainCounters(listings[i].value)
    requires LandingsMean(forwards, landings) && PlainForwards(forwards) && PlainDestination(of)
    ensures Credited(Items(previous, listings, n, landings), AccountOf(of), d) == Owed(previous, listings, n, forwards, of, d)
  {
    hide LandingsMean, PlainForwards, PlainCounters, PlainDestination, SetItems, Credited, AccountOf, OwedBySet;
    if n > 0 {
      assert AllRead(listings[..n - 1]) by { assert forall i :: 0 <= i < n - 1 ==> listings[..n - 1][i] == listings[..n][i]; }
      hide AllRead;
      SetRead(previous, listings, n - 1, landings);
      RoundCredits(previous, listings, n - 1, forwards, landings, of, d);
      SetCredits(previous, n - 1, listings[n - 1].value, forwards, landings, of, d);
      hide Items;
      CreditedJoin(Items(previous, listings, n - 1, landings),
                   SetItems(previous, SETS[n - 1], listings[n - 1].value, landings), AccountOf(of), d);
    } else {
      NothingCreditedYet(previous, listings, forwards, landings, of, d);
    }
  }

  /** What is read off the kernel are IP addresses, and landing nodes have hexadecimal IDs. */
  ghost predicate PlainRound(listings: Listings, forwards: seq<Forward>) {
    PlainForwards(forwards) && forall i :: 0 <= i < |listings| && listings[i].Some? ==> PlainCounters(listings[i].value)
  }

  /** Every destination is credited in each direction with exactly what the counters that measure it moved. */
  ghost predicate Credits(deltas: map<string, Bytes>, previous: map<string, nat>, listings: Listings, forwards: seq<Forward>)
    requires |listings| == |SETS| && forall i :: 0 <= i < |listings| ==> listings[i].Some?
  {
    forall of: IpKey.Decoded, d: Direction :: PlainDestination(of) ==>
      Amount(Entry(deltas, AccountOf(of)), d) == Owed(previous, listings, |SETS|, forwards, of, d)
  }

  lemma CreditsOfRound(deltas: map<string, Bytes>, previous: map<string, nat>, listings: Listings, forwards: seq<Forward>,
                       landings: map<nat, string>)
    requires |listings| == |SETS| && AllRead(listings) && AllRead(listings[..|SETS|])
    requires Groups(deltas, Items(previous, listings, |SETS|, landings))
    requires LandingsMean(forwards, landings) && PlainRound(listings, forwards)
    ensures Credits(deltas, previous, listings, forwards)
  {
    forall of: IpKey.Decoded, d: Direction | PlainDestination(of)
      ensures Amount(Entry(deltas, AccountOf(of)), d) == Owed(previous, listings, |SETS|, forwards, of, d)
    {
      RoundCredits(previous, listings, |SETS|, forwards, landings, of, d);
      hide *;
    }
  }

  // ------------------------------------------------------------ the sampler object

  class IPAccounting {
    /** The last counter value read per set element. */
    var previous: map<string, nat>
    var applied: string
    var loaded: bool

    ghost function State(): Sampler
      reads this
    {
      Sampler(loaded, applied, previous)
    }

    constructor ()
      ensures State() == Sampler(false, "", map[])
    {
      previous, applied, loaded := map[], "", false;
    }

    method Apply(ruleset: string, installed: bool) returns (ok: bool)
      modifies this
      ensures ok == installed
      ensures State() == if installed then Sampler(true, ruleset, map[]) else old(State())
    {
      if !installed {
        return false;
      }
      applied, loaded, previous := ruleset, true, map[];
      return true;
    }

    /** One set's counters: each is noted, and credited to its account if it moved. */
    static method Tally(previous: map<string, nat>, s: SetInfo, counters: seq<Counter>, landings: map<nat, string>,
                        noted: map<string, nat>, deltas: map<string, Bytes>, ghost items: seq<Item>)
      returns (noted': map<string, nat>, deltas': map<string, Bytes>)
      requires Groups(deltas, items)
      ensures noted' == Noted(noted, s, counters)
      ensures Groups(deltas', items + SetItems(previous, s, counters, landings))
    {
      hide Groups, Credited, AccountKey, ElementName, Credit, CounterDelta, Entry, Get;
      noted', deltas' := noted, deltas;
      ghost var all := SetItems(previous, s, counters, landings);
      assert items + all[..0] == items;
      for n := 0 to |counters|
        invariant noted' == Noted(noted, s, counters[..n])
        invariant Groups(deltas', items + all[..n])
      {
        var c := counters[n];
        var key := SlotKey(s, c.address, c.port);
        var delta := CounterDelta(Get(previous, key), c.bytes);
        noted' := noted'[key := c.bytes];
        assert counters[..n + 1][..n] == counters[..n];
        assert items + all[..n + 1] == items + all[..n] + [all[n]];
        GroupsStep(deltas', items + all[..n], all[n]);
        if delta != 0 {
          var account := AccountKey(s, c, landings);
          deltas' := deltas'[account := Credit(Entry(deltas', account), s.inbound, delta)];
        }
      }
      assert counters[..|counters|] == counters;
      assert all[..|counters|] == all;
    }

    /**
     Collect. The reply of the reload and of each set read are inputs; a round that
     fails reports nothing and rebuilds the table next time. A round that succeeds holds
     for every destination and direction exactly what its counters moved.
     */
    method Collect(ruleset: string, forwards: seq<Forward>, installed: bool, listings: Listings)
      returns (ok: bool, deltas: map<string, Bytes>, ghost landings: map<nat, string>)
      requires |listings| == |SETS|
      modifies this
      ensures LandingsMean(forwards, landings)
      ensures var start := if NeedsInstall(old(State()), ruleset) then Sampler(true, ruleset, map[]) else old(State());
        if NeedsInstall(old(State()), ruleset) && !installed then !ok && State() == old(State())
        else
          var (after, items) := Sampled(start, listings, landings);
          && State() == after && ok == items.Some?
          && (ok ==> Groups(deltas, items.value))
      ensures ok <==> (old(loaded && applied == ruleset) || installed) && forall i :: 0 <= i < |listings| ==> listings[i].Some?
      ensures var before := if NeedsInstall(old(State()), ruleset) then map[] else old(previous);
        ok && PlainRound(listings, forwards) ==> Credits(deltas, before, listings, forwards)
    {
      hide LandingsMean, Groups, Items, NewPrevious, PlainRound, Credits;
      deltas := map[];
      var byPort := RelayLandingsByPort(forwards);
      landings := byPort;
      if !loaded || ruleset != applied {
        ok := Apply(ruleset, installed);
        if !ok {
          return;
        }
      }
      var noted;
      ghost var before := previous;
      noted, deltas := ReadSets(previous, listings, byPort);
      ok := noted.Some?;
      if !ok {
        loaded := false;
        previous := map[];
        return;
      }
      previous := noted.value;
      if PlainRound(listings, forwards) { CreditsOfRound(deltas, before, listings, forwards, byPort); }
    }

    /** The sets in order; the first that cannot be read ends the round. */
    static method ReadSets(previous: map<string, nat>, listings: Listings, byPort: map<nat, string>)
      returns (noted: Option<map<string, nat>>, deltas: map<string, Bytes>)
      requires |listings| == |SETS|
      ensures noted.Some? <==> AllRead(listings)
      ensures noted.Some? ==> noted.value == NewPrevious(listings, |SETS|)
      ensures noted.Some? ==> Groups(deltas, Items(previous, listings, |SETS|, byPort))
    {
      deltas := map[];
      var seen := map[];
      for n := 0 to |SETS|
        invariant AllRead(listings[..n])
        invariant seen == NewPrevious(listings, n)
        invariant Groups(deltas, Items(previous, listings, n, byPort))
      {
        hide Groups, SetItems, Noted, Items, NewPrevious, AllRead;
        if listings[n].None? {
          NotAllRead(listings, n);
          return None, deltas;
        }
        SetRead(previous, listings, n, byPort);
        seen, deltas := Tally(previous, SETS[n], listings[n].value, byPort, seen, deltas, Items(previous, listings, n, byPort));
      }
      assert listings[..|SETS|] == listings;
      return Some(seen), deltas;
    }

    /** Remove: the table is asked to be deleted unless it is known to be gone; the effect is the machine's. */
    method Remove(deletion: Fate) returns (asked: bool, ok: bool)
      modifies this
      ensures asked == old(loaded) && ok == (asked ==> deletion == Works)
      ensures State() == old(State()).(loaded := false)
      ensures forall s: State, e: Element | e.home < |SETS| && s.sampler == old(State()) ::
        Step(s, e, Event.Remove(deletion)) ==
          s.(sampler := State(), kernel := if asked && deletion != Fails then Strike(s.kernel, Flush) else s.kernel)
    {
      if !loaded {
        return false, true;
      }
      loaded := false;
      return true, deletion == Works;
    }
  }
}
