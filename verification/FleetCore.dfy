/**
 The coordinated core change (internal/hubctl/core.go): every installed spoke first,
 the hub last, and a rollback in reverse order. A request may take effect and still
 be answered with an error, or be lost; health reads may fail but do not lie about
 the version; nobody else changes versions meanwhile.
 */
module FleetCore {
  import opened Wrappers
  import opened Text
  import IpKey

  // ------------------------------------------------------------ release tags

  predicate Number(s: string) {
    s != "" && (forall i :: 0 <= i < |s| ==> '0' <= s[i] <= '9') && (|s| == 1 || s[0] != '0')
  }

  /** nodeapi.ValidateStableSingBoxTag: exactly v, major, minor and patch. */
  predicate StableTag(tag: string) {
    && tag != "" && tag[0] == 'v'
    && match IpKey.Cut(tag[1..], '.')
       case None => false
       case Some((major, rest)) =>
         Number(major) &&
         match IpKey.Cut(rest, '.')
         case None => false
         case Some((minor, patch)) => Number(minor) && Number(patch)
  }

  lemma NumberMeans(s: string)
    ensures Number(s) <==> exists n: nat :: s == Decimal(n)
  {
    if Number(s) { DigitsAreDecimal(s); }
    if n: nat :| s == Decimal(n) { DecimalReads(n); }
  }

  function Tag(a: nat, b: nat, c: nat): string {
    "v" + (Decimal(a) + ['.'] + (Decimal(b) + ['.'] + Decimal(c)))
  }

  /** The stable tags are v1.12.4 and its like: three numbers, nothing before, between or after them. */
  lemma StableTagMeans(tag: string)
    ensures StableTag(tag) <==> exists a: nat, b: nat, c: nat :: tag == Tag(a, b, c)
  {
    hide StableTag, Tag;
    if StableTag(tag) { StableTagNumbers(tag); }
    if a: nat, b: nat, c: nat :| tag == Tag(a, b, c) { NumbersAreStable(a, b, c); }
  }

  lemma StableTagNumbers(tag: string)
    requires StableTag(tag)
    ensures exists a: nat, b: nat, c: nat :: tag == Tag(a, b, c)
  {
    var (major, rest) := IpKey.Cut(tag[1..], '.').value;
    var (minor, patch) := IpKey.Cut(rest, '.').value;
    hide Number;
    IpKey.CutMeans(tag[1..], '.');
    IpKey.CutMeans(rest, '.');
    NumberMeans(major);
    NumberMeans(minor);
    NumberMeans(patch);
    hide IpKey.Cut;
    var a: nat :| major == Decimal(a);
    var b: nat :| minor == Decimal(b);
    var c: nat :| patch == Decimal(c);
    hide Decimal;
    assert tag == "v" + tag[1..];
    assert tag == Tag(a, b, c);
  }

  lemma NumbersAreStable(a: nat, b: nat, c: nat)
    ensures StableTag(Tag(a, b, c))
  {
    var rest := Decimal(b) + ['.'] + Decimal(c);
    assert Tag(a, b, c)[0] == 'v';
    assert Tag(a, b, c)[1..] == Decimal(a) + ['.'] + rest;
    IpKey.CutFirst(Decimal(a), '.', rest);
    IpKey.CutFirst(Decimal(b), '.', Decimal(c));
    hide Number, IpKey.Cut;
    NumberMeans(Decimal(a));
    NumberMeans(Decimal(b));
    NumberMeans(Decimal(c));
    assert Number(Decimal(a)) && Number(Decimal(b)) && Number(Decimal(c));
    assert IpKey.Cut(Tag(a, b, c)[1..], '.') == Some((Decimal(a), rest));
  }

  // ------------------------------------------------------------ the fleet

  datatype Health = Health(ok: bool, installed: bool, version: string, active: bool)

  /** A mutating request; a hub change also notes what the spokes ran when it was sent. */
  datatype Call = SpokeChange(node: nat, tag: string) | HubChange(tag: string, fleet: seq<string>)

  /**
   The machines on the other end. Every choice made with * is the adversary's; a call
   marked calm is answered, takes effect and finds its machine healthy.
   */
  class World {
    var hub: string
    var spokes: seq<string>
    ghost var log: seq<Call>

    constructor (hub: string, spokes: seq<string>)
      ensures this.hub == hub && this.spokes == spokes && log == []
    {
      this.hub, this.spokes, log := hub, spokes, [];
    }

    /** CurrentCoreVersion. */
    method HubVersion(calm: bool) returns (version: Option<string>)
      ensures version.Some? ==> version.value == hub
      ensures calm ==> version.Some?
    {
      var answered: bool := *;
      version := if answered || calm then Some(hub) else None;
    }

    /** Anything whose failure has no effect on a version: a probe, a staged archive, a persisted record. */
    method Harmless(calm: bool) returns (ok: bool)
      ensures calm ==> ok
    {
      ok := *;
      ok := ok || calm;
    }

    method ReadHealth(node: nat, calm: bool) returns (health: Option<Health>)
      requires node < |spokes|
      ensures health.Some? ==> health.value.version == spokes[node]
      ensures calm ==> health == Some(Health(true, true, spokes[node], true))
    {
      var answered: bool := *;
      var ok: bool, installed: bool, active: bool := *, *, *;
      health :=
        if calm then Some(Health(true, true, spokes[node], true))
        else if answered then Some(Health(ok, installed, spokes[node], active)) else None;
    }

    method ChangeSpoke(node: nat, tag: string, calm: bool) returns (ok: bool)
      requires node < |spokes|
      modifies this
      ensures hub == old(hub) && log == old(log) + [SpokeChange(node, tag)]
      ensures spokes == old(spokes) || spokes == old(spokes)[node := tag]
      ensures calm ==> ok && spokes == old(spokes)[node := tag]
    {
      var effect: bool := *;
      if effect || calm { spokes := spokes[node := tag]; }
      log := log + [SpokeChange(node, tag)];
      ok := Harmless(calm);
    }

    /** ChangeLocalCore. */
    method ChangeHub(tag: string, calm: bool) returns (ok: bool)
      modifies this
      ensures spokes == old(spokes) && log == old(log) + [HubChange(tag, spokes)]
      ensures hub == old(hub) || hub == tag
      ensures calm ==> ok && hub == tag
    {
      var effect: bool := *;
      log := log + [HubChange(tag, spokes)];
      if effect || calm { hub := tag; }
      ok := Harmless(calm);
    }
  }

  // ------------------------------------------------------------ reading

  datatype Observed = Observed(node: nat, version: string)

  predicate Ascending(nodes: seq<nat>, bound: nat) {
    && (forall i :: 0 <= i < |nodes| ==> nodes[i] < bound)
    && (forall i, j :: 0 <= i < j < |nodes| ==> nodes[i] < nodes[j])
  }

  predicate ListsInstalled(nodes: seq<nat>, installed: seq<bool>) {
    Ascending(nodes, |installed|) && forall n :: 0 <= n < |installed| ==> (installed[n] <==> n in nodes)
  }

  method InstalledNodes(installed: seq<bool>) returns (nodes: seq<nat>)
    ensures ListsInstalled(nodes, installed)
  {
    nodes := [];
    for n := 0 to |installed|
      invariant ListsInstalled(nodes, installed[..n])
    {
      var before := nodes;
      if installed[n] { nodes := nodes + [n]; }
      assert forall m :: m in nodes <==> m in before || (m == n && installed[n]);
    }
    assert installed[..|installed|] == installed;
  }

  predicate Observes(observed: seq<Observed>, nodes: seq<nat>, spokes: seq<string>)
    requires Ascending(nodes, |spokes|)
  {
    && |observed| == |nodes|
    && forall i :: 0 <= i < |nodes| ==> observed[i] == Observed(nodes[i], spokes[nodes[i]])
  }

  /** Every version a change would start from is exact and stable. */
  ghost predicate AllStable(hub: string, nodes: seq<nat>, spokes: seq<string>)
    requires Ascending(nodes, |spokes|)
  {
    StableTag(hub) && forall i :: 0 <= i < |nodes| ==> StableTag(spokes[nodes[i]])
  }

  /** inspectFleetCore: every version is exact, stable and active, or nothing starts. */
  method Inspect(w: World, nodes: seq<nat>, calm: bool) returns (hub: string, status: Option<seq<Observed>>)
    requires Ascending(nodes, |w.spokes|)
    ensures status.Some? ==> hub == w.hub && AllStable(hub, nodes, w.spokes)
    ensures status.Some? ==> Observes(status.value, nodes, w.spokes)
    ensures calm ==> (status.Some? <==> AllStable(w.hub, nodes, w.spokes))
  {
    hide StableTag;
    var version := w.HubVersion(calm);
    if version.None? || !StableTag(version.value) { return "", None; }
    hub := version.value;
    var active := w.Harmless(calm);
    if !active { return hub, None; }
    var seen: seq<Observed> := [];
    for i := 0 to |nodes|
      invariant |seen| == i
      invariant forall k :: 0 <= k < i ==> seen[k] == Observed(nodes[k], w.spokes[nodes[k]])
      invariant forall k :: 0 <= k < i ==> StableTag(w.spokes[nodes[k]])
    {
      var checked := w.Harmless(calm);
      if !checked { return hub, None; }
      var health := w.ReadHealth(nodes[i], calm);
      if health.None? || !health.value.ok || !health.value.installed
         || !StableTag(health.value.version) || !health.value.active
      {
        return hub, None;
      }
      seen := seen + [Observed(nodes[i], health.value.version)];
    }
    status := Some(seen);
  }

  method VerifySpoke(w: World, node: nat, expected: string, calm: bool) returns (ok: bool)
    requires node < |w.spokes|
    ensures ok ==> w.spokes[node] == expected
    ensures calm ==> (ok <==> w.spokes[node] == expected)
  {
    var health := w.ReadHealth(node, calm);
    if health.None? || !health.value.ok || !health.value.installed
       || health.value.version != expected || !health.value.active
    {
      return false;
    }
    ok := w.Harmless(calm);
  }

  method VerifyHub(w: World, expected: string, calm: bool) returns (ok: bool)
    ensures ok ==> w.hub == expected
    ensures calm ==> (ok <==> w.hub == expected)
  {
    var version := w.HubVersion(calm);
    if version.None? || version.value != expected { return false; }
    ok := w.Harmless(calm);
  }

  // ------------------------------------------------------------ rollback

  datatype RollbackError = HubError | SpokeError(node: nat)

  function Forward(changed: seq<Observed>, target: string): seq<Call> {
    seq(|changed|, i requires 0 <= i < |changed| => SpokeChange(changed[i].node, target))
  }

  /** The restoring requests, last changed spoke first. */
  function Backward(changed: seq<Observed>): seq<Call> {
    seq(|changed|, i requires 0 <= i < |changed| =>
      SpokeChange(changed[|changed| - 1 - i].node, changed[|changed| - 1 - i].version))
  }

  ghost predicate Touched(changed: seq<Observed>, node: nat) {
    exists i :: 0 <= i < |changed| && changed[i].node == node
  }

  ghost predicate WellFormed(changed: seq<Observed>, spokes: seq<string>) {
    && (forall i :: 0 <= i < |changed| ==> changed[i].node < |spokes|)
    && (forall i, j :: 0 <= i < j < |changed| ==> changed[i].node != changed[j].node)
  }

  /** Each version is the one before or the other one. */
  ghost predicate Between(before: seq<string>, now: seq<string>, target: string) {
    |now| == |before| && forall n :: 0 <= n < |before| ==> now[n] == before[n] || now[n] == target
  }

  method RollbackHub(w: World, hub: string, calm: bool) returns (errors: seq<RollbackError>)
    modifies w
    ensures calm ==> errors == []
    ensures w.spokes == old(w.spokes)
    ensures w.hub == old(w.hub) || w.hub == hub
    ensures errors == [] || errors == [HubError]
    ensures errors == [] ==> w.hub == hub
    ensures w.log == old(w.log) || w.log == old(w.log) + [HubChange(hub, w.spokes)]
    ensures old(w.hub) == hub ==> w.log == old(w.log)
  {
    var current := w.HubVersion(calm);
    if current.None? { return [HubError]; }
    if current.value != hub {
      var restored := w.ChangeHub(hub, calm);
      if !restored { return [HubError]; }
      var verified := VerifyHub(w, hub, calm);
      if !verified { return [HubError]; }
    }
    errors := [];
  }

  /** One spoke, on the way out or back: staging that fails sends nothing; once the request is sent only a verified read is success. */
  method ConvergeSpoke(w: World, spoke: Observed, target: string, calm: bool) returns (sent: bool, ok: bool)
    requires spoke.node < |w.spokes|
    modifies w
    ensures w.hub == old(w.hub) && |w.spokes| == |old(w.spokes)|
    ensures !sent ==> !ok && w.spokes == old(w.spokes) && w.log == old(w.log)
    ensures sent ==> w.log == old(w.log) + [SpokeChange(spoke.node, target)]
    ensures w.spokes == old(w.spokes) || w.spokes == old(w.spokes)[spoke.node := target]
    ensures ok ==> sent && w.spokes[spoke.node] == target
    ensures calm ==> ok
  {
    var staged := w.Harmless(calm);
    if !staged { return false, false; }
    var accepted := w.ChangeSpoke(spoke.node, target, calm);
    if !accepted { return true, false; }
    var verified := VerifySpoke(w, spoke.node, target, calm);
    return true, verified;
  }

  /** Of the changed spokes those from position i on have been asked back; one that is not back is named. */
  ghost predicate AskedBack(before: seq<string>, spokes: seq<string>, changed: seq<Observed>, i: nat,
                            errors: seq<RollbackError>, target: string)
    requires i <= |changed|
  {
    && Between(before, spokes, target)
    && (forall n :: 0 <= n < |before| && spokes[n] != before[n] ==> SpokeError(n) in errors || Touched(changed[..i], n))
    && (forall n :: 0 <= n < |before| && !Touched(changed, n) ==> spokes[n] == before[n])
  }

  lemma AskBackStep(before: seq<string>, spokes: seq<string>, spokes': seq<string>, changed: seq<Observed>, i: nat,
                    errors: seq<RollbackError>, errors': seq<RollbackError>, target: string)
    requires i < |changed| && AskedBack(before, spokes, changed, i + 1, errors, target)
    requires var o := changed[i];
      && o.node < |before| && o.version == before[o.node]
      && (spokes' == spokes || spokes' == spokes[o.node := o.version])
      && (errors' == errors + [SpokeError(o.node)] || (errors' == errors && spokes'[o.node] == o.version))
    ensures AskedBack(before, spokes', changed, i, errors', target)
  {
    var o := changed[i];
    assert Touched(changed, o.node);
    assert forall n :: Touched(changed[..i + 1], n) ==> Touched(changed[..i], n) || n == o.node;
  }

  /** Restores the changed spokes in reverse; whatever is not restored is named in the errors. */
  method RollbackSpokes(w: World, changed: seq<Observed>, target: string, calm: bool, ghost before: seq<string>)
    returns (errors: seq<RollbackError>)
    requires WellFormed(changed, w.spokes) && Between(before, w.spokes, target)
    requires forall i :: 0 <= i < |changed| ==> changed[i].version == before[changed[i].node]
    requires forall n :: 0 <= n < |before| && w.spokes[n] != before[n] ==> Touched(changed, n)
    modifies w
    ensures w.hub == old(w.hub) && Between(before, w.spokes, target)
    ensures forall n :: 0 <= n < |before| && w.spokes[n] != before[n] ==> SpokeError(n) in errors
    ensures forall n :: 0 <= n < |before| && !Touched(changed, n) ==> w.spokes[n] == before[n]
    ensures HubError !in errors
    ensures old(w.log) <= w.log && forall k :: |old(w.log)| <= k < |w.log| ==> w.log[k].SpokeChange?
    ensures errors == [] ==> w.log == old(w.log) + Backward(changed)
    ensures calm ==> errors == []
  {
    errors := [];
    var i := |changed|;
    assert changed[..i] == changed;
    ghost var back := Backward(changed);
    while i > 0
      invariant 0 <= i <= |changed| && (calm ==> errors == [])
      invariant w.hub == old(w.hub) && |w.spokes| == |before| && AskedBack(before, w.spokes, changed, i, errors, target)
      invariant HubError !in errors
      invariant old(w.log) <= w.log && forall k :: |old(w.log)| <= k < |w.log| ==> w.log[k].SpokeChange?
      invariant errors == [] ==> w.log == old(w.log) + back[..|changed| - i]
    {
      hide AskedBack, Backward, Touched, Between;
      i := i - 1;
      var item := changed[i];
      ghost var spokes, errorsBefore := w.spokes, errors;
      assert back[..|changed| - i] == back[..|changed| - i - 1] + [SpokeChange(item.node, item.version)];
      var sent, restored := ConvergeSpoke(w, item, item.version, calm);
      if !restored {
        errors := errors + [SpokeError(item.node)];
      }
      AskBackStep(before, spokes, w.spokes, changed, i, errorsBefore, errors, target);
    }
    assert back[..|changed|] == back;
  }

  // ------------------------------------------------------------ the change

  datatype Result =
    | Refused
    | Converged
    | RolledBack(errors: seq<RollbackError>)

  /** The spokes that still need the target, in registry order. */
  function Stale(observed: seq<Observed>, target: string): seq<Observed> {
    if observed == [] then []
    else
      var rest, last := Stale(observed[..|observed| - 1], target), observed[|observed| - 1];
      if last.version == target then rest else rest + [last]
  }

  /** In registry order: of a list in two parts first the one's stale spokes, then the other's. */
  lemma {:induction false} StaleJoin(a: seq<Observed>, b: seq<Observed>, target: string)
    ensures Stale(a + b, target) == Stale(a, target) + Stale(b, target)
    ensures forall o :: Stale([o], target) == if o.version == target then [] else [o]
  {
    forall o: Observed ensures Stale([o], target) == if o.version == target then [] else [o] {
      assert [o][..0] == [];
    }
    if b == [] {
      assert a + b == a;
    } else {
      assert (a + b)[..|a + b| - 1] == a + b[..|b| - 1];
      StaleJoin(a, b[..|b| - 1], target);
    }
  }

  lemma {:induction false} StaleMeans(observed: seq<Observed>, target: string, nodes: seq<nat>, spokes: seq<string>)
    requires Ascending(nodes, |spokes|) && Observes(observed, nodes, spokes)
    ensures WellFormed(Stale(observed, target), spokes)
    ensures forall i :: 0 <= i < |Stale(observed, target)| ==>
      var o := Stale(observed, target)[i]; o.node in nodes && o.version == spokes[o.node] != target
  {
    if observed != [] {
      var last, shorter := observed[|observed| - 1], nodes[..|nodes| - 1];
      StaleMeans(observed[..|observed| - 1], target, shorter, spokes);
      assert forall n :: n in shorter ==> n in nodes && n < last.node;
    }
  }

  lemma {:induction false} StaleComplete(observed: seq<Observed>, target: string, nodes: seq<nat>, spokes: seq<string>, at: nat)
    requires Ascending(nodes, |spokes|) && Observes(observed, nodes, spokes)
    requires at < |nodes| && spokes[nodes[at]] != target
    ensures Touched(Stale(observed, target), nodes[at])
  {
    var rest, all := Stale(observed[..|observed| - 1], target), Stale(observed, target);
    if at < |observed| - 1 {
      StaleComplete(observed[..|observed| - 1], target, nodes[..|nodes| - 1], spokes, at);
      var i :| 0 <= i < |rest| && rest[i].node == nodes[at];
      assert all[i] == rest[i];
    } else {
      assert all[|rest|] == observed[at];
    }
  }

  /** Between preflight and now: the changed spokes were sent the target, and nothing else happened. */
  ghost predicate Progress(before: seq<string>, spokes: seq<string>, calls: seq<Call>, changed: seq<Observed>, target: string) {
    && WellFormed(changed, before) && Between(before, spokes, target)
    && (forall i :: 0 <= i < |changed| ==> changed[i].version == before[changed[i].node])
    && (forall n :: 0 <= n < |before| && spokes[n] != before[n] ==> Touched(changed, n))
    && calls == Forward(changed, target)
  }

  lemma ProgressStep(before: seq<string>, spokes: seq<string>, spokes': seq<string>, calls: seq<Call>,
                     changed: seq<Observed>, target: string, spoke: Observed)
    requires Progress(before, spokes, calls, changed, target)
    requires spoke.node < |before| && spoke.version == before[spoke.node] && !Touched(changed, spoke.node)
    requires spokes' == spokes || spokes' == spokes[spoke.node := target]
    ensures Progress(before, spokes', calls + [SpokeChange(spoke.node, target)], changed + [spoke], target)
  {
    var more := changed + [spoke];
    assert more[|changed|] == spoke;
    forall n | 0 <= n < |before| && spokes'[n] != before[n] ensures Touched(more, n) {
      if n != spoke.node {
        var i :| 0 <= i < |changed| && changed[i].node == n;
        assert more[i] == changed[i];
      }
    }
    forall i, j | 0 <= i < j < |more| ensures more[i].node != more[j].node {
      assert j == |changed| ==> changed[i].node != spoke.node;
    }
  }

  /** Converges every stale spoke, stopping at the first failure; changed lists every spoke a request was sent to. */
  method ChangeSpokes(w: World, observed: seq<Observed>, target: string, calm: bool, ghost nodes: seq<nat>)
    returns (ok: bool, changed: seq<Observed>)
    requires Ascending(nodes, |w.spokes|) && Observes(observed, nodes, w.spokes)
    modifies w
    ensures w.hub == old(w.hub) && old(w.log) <= w.log
    ensures Progress(old(w.spokes), w.spokes, w.log[|old(w.log)|..], changed, target)
    ensures changed <= Stale(observed, target)
    ensures calm ==> ok
    ensures ok ==> changed == Stale(observed, target) && forall i :: 0 <= i < |nodes| ==> w.spokes[nodes[i]] == target
  {
    hide Progress, Stale, Touched;
    ghost var before, log := w.spokes, w.log;
    ghost var calls: seq<Call> := [];
    changed := [];
    StartProgress(before, observed, target);
    for i := 0 to |observed|
      invariant w.hub == old(w.hub) && w.log == log + calls && |w.spokes| == |before|
      invariant Progress(before, w.spokes, calls, changed, target)
      invariant changed == Stale(observed[..i], target)
      invariant forall k :: 0 <= k < i ==> w.spokes[nodes[k]] == target
    {
      var spoke := observed[i];
      StaleNext(observed, i, target);
      StalePrefix(observed, i, target);
      StalePrefix(observed, i + 1, target);
      StaleIsOlder(observed, i, target, nodes, before);
      ProgressReads(before, w.spokes, calls, changed, target, spoke.node);
      if spoke.version != target {
        ghost var atCall := w.spokes;
        var sent, verified := ConvergeSpoke(w, spoke, target, calm);
        if sent {
          ProgressStep(before, atCall, w.spokes, calls, changed, target, spoke);
          changed := changed + [spoke];
          calls := calls + [SpokeChange(spoke.node, target)];
          assert w.log == log + calls;
        }
        if !verified {
          assert w.log[|log|..] == calls;
          return false, changed;
        }
      }
    }
    assert observed[..|observed|] == observed;
    assert w.log[|log|..] == calls;
    ok := true;
  }

  lemma StartProgress(before: seq<string>, observed: seq<Observed>, target: string)
    ensures Progress(before, before, [], [], target)
    ensures Stale(observed[..0], target) == []
  {
  }

  /** A spoke no request was sent to still runs what it ran. */
  lemma ProgressReads(before: seq<string>, spokes: seq<string>, calls: seq<Call>, changed: seq<Observed>, target: string, node: nat)
    requires Progress(before, spokes, calls, changed, target) && node < |before| && !Touched(changed, node)
    ensures |spokes| == |before| && spokes[node] == before[node]
  {
  }

  lemma StaleNext(observed: seq<Observed>, n: nat, target: string)
    requires n < |observed|
    ensures Stale(observed[..n + 1], target)
         == Stale(observed[..n], target) + if observed[n].version == target then [] else [observed[n]]
  {
    assert observed[..n + 1][..n] == observed[..n];
  }

  /** The stale spokes found before position n are all different from the one there. */
  lemma StaleIsOlder(observed: seq<Observed>, n: nat, target: string, nodes: seq<nat>, spokes: seq<string>)
    requires n < |observed| && Ascending(nodes, |spokes|) && Observes(observed, nodes, spokes)
    ensures !Touched(Stale(observed[..n], target), observed[n].node)
  {
    hide Stale;
    StaleMeans(observed[..n], target, nodes[..n], spokes);
  }

  lemma {:induction false} StalePrefix(observed: seq<Observed>, n: nat, target: string)
    requires n <= |observed|
    ensures Stale(observed[..n], target) <= Stale(observed, target)
    decreases |observed|
  {
    if n < |observed| {
      assert observed[..|observed| - 1][..n] == observed[..n];
      StalePrefix(observed[..|observed| - 1], n, target);
    } else {
      assert observed[..n] == observed;
    }
  }

  /** The hub's own commit: sent only if it is not on the target yet, and success means it is. */
  method CommitHub(w: World, hub: string, target: string, calm: bool) returns (ok: bool)
    requires w.hub == hub
    modifies w
    ensures calm ==> ok
    ensures w.spokes == old(w.spokes) && (w.hub == hub || w.hub == target)
    ensures ok ==> w.hub == target
    ensures w.log == old(w.log) + if hub == target then [] else [HubChange(target, w.spokes)]
  {
    if hub != target {
      var accepted := w.ChangeHub(target, calm);
      if !accepted { return false; }
    }
    ok := VerifyHub(w, target, calm);
  }

  /** A request went to an installed spoke exactly when it did not run the target yet. */
  ghost predicate SentExactly(changed: seq<Observed>, installed: seq<bool>, before: seq<string>, target: string)
    requires |installed| == |before|
  {
    forall n :: 0 <= n < |installed| ==> (Touched(changed, n) <==> installed[n] && before[n] != target)
  }

  /** Every hub request either carries the target to a hub whose installed spokes all run it, or restores the hub. */
  ghost predicate HubLast(calls: seq<Call>, oldHub: string, target: string, installed: seq<bool>) {
    forall k :: 0 <= k < |calls| && calls[k].HubChange? ==>
      calls[k].tag == oldHub ||
      (calls[k].tag == target && |calls[k].fleet| == |installed|
       && forall n :: 0 <= n < |installed| && installed[n] ==> calls[k].fleet[n] == target)
  }

  /** The requests of a clean rollback: out to the changed spokes, the hub's if any, and back in reverse. */
  ghost predicate RestoresInReverse(calls: seq<Call>, changed: seq<Observed>, target: string, hub: seq<Call>) {
    && (forall k :: 0 <= k < |hub| ==> hub[k].HubChange?)
    && calls == Forward(changed, target) + hub + Backward(changed)
  }

  lemma HubLastJoin(a: seq<Call>, b: seq<Call>, oldHub: string, target: string, installed: seq<bool>)
    requires HubLast(a, oldHub, target, installed) && HubLast(b, oldHub, target, installed)
    ensures HubLast(a + b, oldHub, target, installed)
  {
  }

  lemma SpokeCallsAreFine(calls: seq<Call>, oldHub: string, target: string, installed: seq<bool>)
    requires forall k :: 0 <= k < |calls| ==> calls[k].SpokeChange?
    ensures HubLast(calls, oldHub, target, installed)
  {
  }

  /** Only the changed spokes may have moved, each from the version it was recorded with. */
  ghost predicate Sent(before: seq<string>, spokes: seq<string>, changed: seq<Observed>, target: string) {
    && WellFormed(changed, spokes) && Between(before, spokes, target)
    && (forall i :: 0 <= i < |changed| ==> changed[i].version == before[changed[i].node])
    && (forall n :: 0 <= n < |before| && spokes[n] != before[n] ==> Touched(changed, n))
  }

  /** What is known once every stale spoke has been sent the target, and nothing else. */
  lemma SpokesSent(before: seq<string>, spokes: seq<string>, calls: seq<Call>, changed: seq<Observed>, target: string,
                   observed: seq<Observed>, nodes: seq<nat>, installed: seq<bool>)
    requires Progress(before, spokes, calls, changed, target)
    requires ListsInstalled(nodes, installed) && |installed| == |before| && Observes(observed, nodes, before)
    requires changed <= Stale(observed, target)
    ensures calls == Forward(changed, target)
    ensures forall k :: 0 <= k < |calls| ==> calls[k].SpokeChange?
    ensures Sent(before, spokes, changed, target) && Between(before, spokes, target)
    ensures forall n :: 0 <= n < |before| && Touched(changed, n) ==> installed[n]
    ensures changed == Stale(observed, target) ==> SentExactly(changed, installed, before, target)
  {
    StaleMeans(observed, target, nodes, before);
    forall n | 0 <= n < |before| && Touched(changed, n) ensures installed[n] && before[n] != target {
      var i :| 0 <= i < |changed| && changed[i].node == n;
      assert Stale(observed, target)[i] == changed[i];
    }
    forall n | 0 <= n < |before| && installed[n] && before[n] != target ensures Touched(Stale(observed, target), n) {
      var at :| 0 <= at < |nodes| && nodes[at] == n;
      StaleComplete(observed, target, nodes, before, at);
    }
  }

  /** The rollback closure: the hub first if it may have changed, then the spokes. */
  method Rollback(w: World, hub: string, hubToo: bool, changed: seq<Observed>, target: string, calm: bool, ghost before: seq<string>)
    returns (errors: seq<RollbackError>, ghost hubCalls: seq<Call>, ghost spokeCalls: seq<Call>)
    requires Sent(before, w.spokes, changed, target)
    requires w.hub == hub || (hubToo && w.hub == target)
    modifies w
    ensures w.hub == hub || w.hub == target
    ensures w.hub != hub ==> HubError in errors
    ensures Between(before, w.spokes, target)
    ensures forall n :: 0 <= n < |before| && w.spokes[n] != before[n] ==> SpokeError(n) in errors
    ensures forall n :: 0 <= n < |before| && !Touched(changed, n) ==> w.spokes[n] == before[n]
    ensures w.log == old(w.log) + hubCalls + spokeCalls
    ensures hubCalls == [] || (hubToo && hubCalls == [HubChange(hub, old(w.spokes))])
    ensures forall k :: 0 <= k < |spokeCalls| ==> spokeCalls[k].SpokeChange?
    ensures errors == [] ==> spokeCalls == Backward(changed)
    ensures calm ==> errors == []
  {
    hide Between, WellFormed, Touched, Backward;
    errors, hubCalls := [], [];
    if hubToo {
      errors := RollbackHub(w, hub, calm);
      if w.log != old(w.log) { hubCalls := [HubChange(hub, old(w.spokes))]; }
    }
    ghost var middle := w.log;
    var spokeErrors := RollbackSpokes(w, changed, target, calm, before);
    errors := errors + spokeErrors;
    spokeCalls := w.log[|middle|..];
  }

  /** The requests after the spokes' own: the hub's, if any, then the restoring ones. */
  ghost predicate EndsInReverse(calls: seq<Call>, changed: seq<Observed>, hub: seq<Call>) {
    (forall k :: 0 <= k < |hub| ==> hub[k].HubChange?) && calls == hub + Backward(changed)
  }

  lemma JoinRestore(calls: seq<Call>, more: seq<Call>, changed: seq<Observed>, target: string)
    requires calls == Forward(changed, target)
    ensures forall hub :: EndsInReverse(more, changed, hub) ==> RestoresInReverse(calls + more, changed, target, hub)
  {
    forall hub | EndsInReverse(more, changed, hub) ensures RestoresInReverse(calls + more, changed, target, hub) {
      assert calls + (hub + Backward(changed)) == calls + hub + Backward(changed);
    }
  }

  /** The hub commit once every spoke is done; a rollback when it, or a spoke, failed. */
  method Finish(w: World, hub: string, spokesDone: bool, sent: seq<Observed>, target: string, calm: bool, calmBack: bool,
                ghost before: seq<string>, ghost installed: seq<bool>)
    returns (r: Result, ghost calls: seq<Call>)
    requires w.hub == hub && |installed| == |w.spokes| && Sent(before, w.spokes, sent, target)
    requires spokesDone ==> forall n :: 0 <= n < |installed| && installed[n] ==> w.spokes[n] == target
    modifies w
    ensures !r.Refused? && Between(before, w.spokes, target) && (w.hub == hub || w.hub == target)
    ensures r.Converged? ==> spokesDone && w.hub == target && w.spokes == old(w.spokes)
    ensures r.Converged? ==> calls == if hub == target then [] else [HubChange(target, w.spokes)]
    ensures r.RolledBack? ==> (w.hub != hub ==> HubError in r.errors)
    ensures r.RolledBack? ==> forall n :: 0 <= n < |before| && w.spokes[n] != before[n] ==> SpokeError(n) in r.errors
    ensures r.RolledBack? ==> forall n :: 0 <= n < |before| && !Touched(sent, n) ==> w.spokes[n] == before[n]
    ensures w.log == old(w.log) + calls && HubLast(calls, hub, target, installed)
    ensures calm && spokesDone ==> r.Converged?
    ensures calmBack ==> r.Converged? || r == RolledBack([])
    ensures r == RolledBack([]) ==> exists restored :: EndsInReverse(calls, sent, restored)
  {
    hide Touched, Backward, WellFormed;
    calls := [];
    if spokesDone {
      calls := if hub == target then [] else [HubChange(target, w.spokes)];
      var ok := CommitHub(w, hub, target, calm);
      if ok { return Converged, calls; }
    }
    ghost var commit := calls;
    assert HubLast(commit, hub, target, installed);
    var errors;
    ghost var hubCalls, spokeCalls;
    errors, hubCalls, spokeCalls := Rollback(w, hub, spokesDone, sent, target, calmBack, before);
    SpokeCallsAreFine(spokeCalls, hub, target, installed);
    HubLastJoin(commit, hubCalls, hub, target, installed);
    HubLastJoin(commit + hubCalls, spokeCalls, hub, target, installed);
    calls := commit + hubCalls + spokeCalls;
    assert errors == [] ==> EndsInReverse(calls, sent, commit + hubCalls);
    r := RolledBack(errors);
  }

  /** The requested tag and every installed version are exact and stable. */
  ghost predicate Launchable(requested: string, hub: string, installed: seq<bool>, spokes: seq<string>)
    requires |installed| == |spokes|
  {
    && StableTag(Trim(requested)) && StableTag(hub)
    && forall n :: 0 <= n < |installed| && installed[n] ==> StableTag(spokes[n])
  }

  lemma InstalledStable(nodes: seq<nat>, installed: seq<bool>, hub: string, spokes: seq<string>, requested: string)
    requires ListsInstalled(nodes, installed) && |installed| == |spokes| && StableTag(Trim(requested))
    ensures AllStable(hub, nodes, spokes) <==> Launchable(requested, hub, installed, spokes)
  {
    hide StableTag, Trim;
    if AllStable(hub, nodes, spokes) {
      forall n | 0 <= n < |installed| && installed[n] ensures StableTag(spokes[n]) {
        var i :| 0 <= i < |nodes| && nodes[i] == n;
        assert StableTag(spokes[nodes[i]]);
      }
    }
    assert forall i :: 0 <= i < |nodes| ==> nodes[i] in nodes && installed[nodes[i]];
  }

  /** The change went through: exactly the stale spokes, then the hub if it was stale, were sent the target. */
  ghost predicate GoesThrough(changed: seq<Observed>, calls: seq<Call>, target: string, installed: seq<bool>,
                              hub: string, before: seq<string>, hub': string, after: seq<string>)
    requires |installed| == |before| == |after|
  {
    && hub' == target && (forall n :: 0 <= n < |installed| && installed[n] ==> after[n] == target)
    && SentExactly(changed, installed, before, target)
    && calls == Forward(changed, target) + if hub == target then [] else [HubChange(target, after)]
  }

  /** The change was rolled back: whatever is not on its former version is named, and a clean rollback mirrors the way out. */
  ghost predicate GoesBack(errors: seq<RollbackError>, changed: seq<Observed>, calls: seq<Call>, target: string,
                           hub: string, before: seq<string>, hub': string, after: seq<string>)
    requires |before| == |after|
  {
    && (hub' != hub ==> HubError in errors)
    && (forall n :: 0 <= n < |before| && after[n] != before[n] ==> SpokeError(n) in errors)
    && (errors == [] ==> exists middle :: RestoresInReverse(calls, changed, target, middle))
  }

  lemma CleanMeansBack(changed: seq<Observed>, calls: seq<Call>, target: string, hub: string, before: seq<string>,
                       hub': string, after: seq<string>)
    requires |before| == |after| && GoesBack([], changed, calls, target, hub, before, hub', after)
    ensures hub' == hub && after == before
  {
    hide RestoresInReverse;
  }

  /** Everything after the preflight. */
  method Converge(w: World, hub: string, observed: seq<Observed>, nodes: seq<nat>, target: string, installed: seq<bool>,
                  calm: bool, calmBack: bool)
    returns (r: Result, ghost changed: seq<Observed>, ghost calls: seq<Call>)
    requires w.hub == hub && |installed| == |w.spokes| && ListsInstalled(nodes, installed) && Observes(observed, nodes, w.spokes)
    modifies w
    ensures !r.Refused? && Between(old(w.spokes), w.spokes, target) && (w.hub == hub || w.hub == target)
    ensures r.Converged? ==> GoesThrough(changed, calls, target, installed, hub, old(w.spokes), w.hub, w.spokes)
    ensures r.RolledBack? ==> GoesBack(r.errors, changed, calls, target, hub, old(w.spokes), w.hub, w.spokes)
    ensures forall n :: 0 <= n < |installed| && !installed[n] ==> w.spokes[n] == old(w.spokes)[n]
    ensures w.log == old(w.log) + calls && HubLast(calls, hub, target, installed)
    ensures calm ==> r.Converged?
    ensures calmBack ==> r.Converged? || r == RolledBack([])
  {
    hide Progress, Touched, Sent, Observes, Stale, Forward, Backward, SentExactly, Ascending;
    ghost var log, before := w.log, w.spokes;
    var done, sent := ChangeSpokes(w, observed, target, calm, nodes);
    changed := sent;
    calls := w.log[|log|..];
    SpokesSent(before, w.spokes, calls, sent, target, observed, nodes, installed);
    ghost var more;
    r, more := Finish(w, hub, done, sent, target, calm, calmBack, before, installed);
    SpokeCallsAreFine(calls, hub, target, installed);
    HubLastJoin(calls, more, hub, target, installed);
    JoinRestore(calls, more, sent, target);
    calls := calls + more;
  }

  /**
   ChangeFleetCore. Success: everything installed runs the target. Failure: every
   machine that may differ from its preflight version is named in the rollback
   errors, so an error without them means everything is as it was. The hub is only
   sent the target once every installed spoke runs it. The rollback has a context of its
   own: calm speaks of the calls before it, calmBack of its own calls. When the former
   all work the change goes through exactly if every version is stable, and whenever the
   latter all work it goes through or everything is as it was.
   */
  method ChangeFleetCore(w: World, requested: string, installed: seq<bool>, calm: bool, calmBack: bool)
    returns (r: Result, ghost changed: seq<Observed>, ghost calls: seq<Call>)
    requires |installed| == |w.spokes|
    modifies w
    ensures Between(old(w.spokes), w.spokes, Trim(requested)) && (w.hub == old(w.hub) || w.hub == Trim(requested))
    ensures r.Refused? ==> w.hub == old(w.hub) && w.spokes == old(w.spokes) && calls == []
    ensures r.Converged? ==> GoesThrough(changed, calls, Trim(requested), installed, old(w.hub), old(w.spokes), w.hub, w.spokes)
    ensures r.RolledBack? ==> GoesBack(r.errors, changed, calls, Trim(requested), old(w.hub), old(w.spokes), w.hub, w.spokes)
    ensures forall n :: 0 <= n < |installed| && !installed[n] ==> w.spokes[n] == old(w.spokes)[n]
    ensures w.log == old(w.log) + calls && HubLast(calls, old(w.hub), Trim(requested), installed)
    ensures !r.Refused? ==> Launchable(requested, old(w.hub), installed, old(w.spokes))
    ensures calm ==> r == if Launchable(requested, old(w.hub), installed, old(w.spokes)) then Converged else Refused
    ensures calmBack && !r.Converged? ==> w.hub == old(w.hub) && w.spokes == old(w.spokes) && (r.Refused? || r == RolledBack([]))
  {
    hide StableTag, Observes, Ascending, AllStable, GoesThrough, GoesBack, Trim;
    changed, calls := [], [];
    var target := Trim(requested);
    if !StableTag(target) { return Refused, changed, calls; }
    var loaded := w.Harmless(calm);
    if !loaded { return Refused, changed, calls; }
    var nodes := InstalledNodes(installed);
    InstalledStable(nodes, installed, w.hub, w.spokes, requested);
    hide Launchable;
    var hub, status := Inspect(w, nodes, calm);
    if status.None? { return Refused, changed, calls; }
    r, changed, calls := Converge(w, hub, status.value, nodes, target, installed, calm, calmBack);
    if r == RolledBack([]) { CleanMeansBack(changed, calls, target, hub, old(w.spokes), w.hub, w.spokes); }
  }
}
