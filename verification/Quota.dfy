/**
 Quota limits (internal/monitor/quota.go) and the machine that stops and restarts
 sing-box (internal/monitor/server.go, quota_release.go). Every effect on the store
 or the service may fail, take effect and still report failure, or be cut off by the
 death of the process on either side of it; other parties may start and stop the
 service in between.
 */
module Quota {
  import opened TrafficLedger

  // ------------------------------------------------------------ limits

  const MODULUS: nat := MAX_UINT64 + 1

  datatype Limits = Limits(inb: nat, outb: nat, total: nat)

  const UNLIMITED: Limits := Limits(0, 0, 0)

  /** TrafficTotals.Total, on 64-bit counters. */
  function Used(t: Totals): nat {
    (t.inb + t.outb) % MODULUS
  }

  predicate LimitExceeded(limit: nat, used: nat) {
    limit > 0 && used >= limit
  }

  predicate Exceeded(l: Limits, t: Totals) {
    LimitExceeded(l.inb, t.inb) || LimitExceeded(l.outb, t.outb) || LimitExceeded(l.total, Used(t))
  }

  function ExtendLimit(limit: nat, extra: nat): nat
    requires limit <= MAX_UINT64
  {
    if limit == 0 then 0 else if extra > MAX_UINT64 - limit then MAX_UINT64 else limit + extra
  }

  predicate Counters(l: Limits) {
    l.inb <= MAX_UINT64 && l.outb <= MAX_UINT64 && l.total <= MAX_UINT64
  }

  function WithPackage(l: Limits, p: Package): Limits
    requires Counters(l)
  {
    Limits(ExtendLimit(l.inb, p.inb), ExtendLimit(l.outb, p.outb), ExtendLimit(l.total, p.total))
  }

  /** One direction has a limit and its allowance, package included, is used up. */
  predicate Spent(limit: nat, extra: nat, used: nat) {
    limit > 0 && used >= limit + extra
  }

  /**
   With usage and packages as the ledgers hold them, the quota is exceeded exactly
   when some limited direction has used its limit plus its package: a package never
   creates a limit, and no addition wraps or saturates within reach.
   */
  lemma ExceededMeansSpent(l: Limits, p: Package, t: Totals)
    requires Counters(l) && t.inb <= MAX_INT64 && t.outb <= MAX_INT64
    ensures Used(t) == t.inb + t.outb
    ensures t.inb + t.outb < MAX_UINT64
    ensures Exceeded(WithPackage(l, p), t) <==>
      Spent(l.inb, p.inb, t.inb) || Spent(l.outb, p.outb, t.outb) || Spent(l.total, p.total, t.inb + t.outb)
  {
  }

  /** Granting more never brings a stop forward. */
  lemma PackagesOnlyHelp(l: Limits, p: Package, more: Package, t: Totals)
    requires Counters(l)
    requires p.inb <= more.inb && p.outb <= more.outb && p.total <= more.total
    ensures Exceeded(WithPackage(l, more), t) ==> Exceeded(WithPackage(l, p), t)
  {
  }

  // ------------------------------------------------------------ the machine

  /**
   marker is the persisted ownership flag and memory the monitor's copy of it. The
   rest of the record is bookkeeping: held says the monitor stopped sing-box and
   nobody has started it since; clearLost that a delete of the marker took effect
   but was reported as failed; unownedStart that Start was called without the marker.
   */
  datatype State = State(alive: bool, memory: bool, marker: bool, active: bool,
                         held: bool, clearLost: bool, unownedStart: bool)

  datatype Env = Quiet | SomeoneStarts | SomeoneStops

  datatype Outcome = Works | Fails | WorksButFails | DiesBefore | DiesAfter

  datatype Fate = Fate(env: Env, outcome: Outcome)

  const CALM: Fate := Fate(Quiet, Works)

  datatype Effect = SetMarker(to: bool) | StartService | StopService

  datatype Reply = Done | Error | Dead

  function Outside(s: State, env: Env): State {
    match env
    case Quiet => s
    case SomeoneStarts => s.(active := true, held := false)
    case SomeoneStops => s.(active := false)
  }

  function Perform(s: State, e: Effect): State {
    match e
    case SetMarker(to) => s.(marker := to)
    case StartService => s.(active := true, held := false)
    case StopService => s.(active := false, held := s.held || s.active)
  }

  function Die(s: State): State {
    s.(alive := false, memory := false)
  }

  /** Asking for an effect, whatever becomes of it. */
  function Issue(s: State, e: Effect, fate: Fate): (State, Reply) {
    var s := Outside(s, fate.env);
    var s := if e.StartService? && !s.marker then s.(unownedStart := true) else s;
    match fate.outcome
    case Works => (Perform(s, e), Done)
    case Fails => (s, Error)
    case WorksButFails => (Perform(s, e).(clearLost := s.clearLost || (e.SetMarker? && !e.to)), Error)
    case DiesBefore => (Die(s), Dead)
    case DiesAfter => (Die(Perform(s, e)), Dead)
  }

  /** IsActive: an answer, an error, or the end of the process. */
  function Inspect(s: State, fate: Fate): (State, Reply) {
    var s := Outside(s, fate.env);
    match fate.outcome
    case Works => (s, Done)
    case Fails => (s, Error)
    case WorksButFails => (s, Error)
    case _ => (Die(s), Dead)
  }

  /** setStoppedByQuota: the persisted flag first, then the one in memory. */
  function SetStopped(s: State, to: bool, fate: Fate): (State, Reply) {
    var (s1, reply) := Issue(s, SetMarker(to), fate);
    if reply == Done then (s1.(memory := to), Done) else (s1, reply)
  }

  /** What the limits, the usage and the package say. */
  datatype View = NoLimits | Unreadable | OverQuota | WithinQuota

  function ViewOf(l: Limits, p: Package, t: Totals): View
    requires Counters(l)
  {
    if l == UNLIMITED then NoLimits else if Exceeded(WithPackage(l, p), t) then OverQuota else WithinQuota
  }

  function Resume(s: State, start: Fate, clear: Fate): (State, Reply) {
    var (s1, r1) := Issue(s, StartService, start);
    if r1 != Done then (s1, r1) else SetStopped(s1, false, clear)
  }

  function Halt(s: State, persist: Fate, stop: Fate): (State, Reply) {
    var (s1, r1) := SetStopped(s, true, persist);
    if r1 != Done then (s1, r1) else Issue(s1, StopService, stop)
  }

  function Reconcile(s: State, view: View, inspect: Fate, first: Fate, second: Fate): (State, Reply) {
    match view
    case Unreadable => (s, Error)
    case OverQuota =>
      var (s1, r1) := Inspect(s, inspect);
      if r1 != Done then (s1, r1) else if !s1.active then (s1, Done) else Halt(s1, first, second)
    case _ => if s.memory then Resume(s, first, second) else (s, Done)
  }

  /** A new process reads the marker back; a failed read counts as no stop. */
  function Restart(s: State, readable: bool): State {
    s.(alive := true, memory := readable && s.marker)
  }

  /** Disabling the monitor: another process undoes a stop the marker says is owned. */
  function Release(s: State, readable: bool, start: Fate, clear: Fate): (State, Reply) {
    if !readable then (s, Error)
    else if !s.marker then (s, Done)
    else
      var (s1, r1) := Issue(s, StartService, start);
      if r1 != Done then (s1, r1) else Issue(s1, SetMarker(false), clear)
  }

  datatype Event =
    | Tick(view: View, inspect: Fate, first: Fate, second: Fate)
    | Boot(readable: bool)
    | Kill
    | Disable(readable: bool, start: Fate, clear: Fate)
    | Meanwhile(env: Env)

  /** A monitor process only ticks while it lives, and is only disabled or replaced when it does not. */
  function Happen(s: State, e: Event): State {
    match e
    case Tick(view, inspect, first, second) => if s.alive then Reconcile(s, view, inspect, first, second).0 else s
    case Boot(readable) => if s.alive then s else Restart(s, readable)
    case Kill => Die(s)
    case Disable(readable, start, clear) => if s.alive then s else Release(s, readable, start, clear).0
    case Meanwhile(env) => Outside(s, env)
  }

  function Run(s: State, events: seq<Event>): State {
    if events == [] then s else Happen(Run(s, events[..|events| - 1]), events[|events| - 1])
  }

  const INITIAL: State := State(false, false, false, true, false, false, false)

  predicate Safe(s: State) {
    && (s.held ==> s.marker && !s.active)
    && (s.memory ==> s.alive && (s.marker || s.clearLost))
    && (s.unownedStart ==> s.clearLost)
  }

  lemma OutsideSafe(s: State, env: Env)
    requires Safe(s)
    ensures Safe(Outside(s, env))
    ensures Outside(s, env).marker == s.marker && Outside(s, env).memory == s.memory
    ensures Outside(s, env).clearLost == s.clearLost && Outside(s, env).alive == s.alive
    ensures !s.held ==> !Outside(s, env).held
  {
  }

  lemma StartSafe(s: State, fate: Fate)
    requires Safe(s) && (s.marker || s.clearLost)
    ensures Safe(Issue(s, StartService, fate).0)
    ensures Issue(s, StartService, fate).1 == Done ==> !Issue(s, StartService, fate).0.held
  {
    hide Outside;
    OutsideSafe(s, fate.env);
  }

  lemma StopSafe(s: State, fate: Fate)
    requires Safe(s) && s.marker
    ensures Safe(Issue(s, StopService, fate).0)
  {
    hide Outside;
    OutsideSafe(s, fate.env);
  }

  /** The marker is only cleared once nothing is held down. */
  lemma ClearSafe(s: State, fate: Fate)
    requires Safe(s) && !s.held
    ensures s.alive ==> Safe(SetStopped(s, false, fate).0)
    ensures !s.alive ==> Safe(Issue(s, SetMarker(false), fate).0)
  {
    hide Outside;
    OutsideSafe(s, fate.env);
  }

  lemma MarkSafe(s: State, fate: Fate)
    requires Safe(s) && s.alive
    ensures Safe(SetStopped(s, true, fate).0)
    ensures SetStopped(s, true, fate).1 == Done ==> SetStopped(s, true, fate).0.marker
  {
    hide Outside;
    OutsideSafe(s, fate.env);
  }

  lemma InspectSafe(s: State, fate: Fate)
    requires Safe(s)
    ensures Safe(Inspect(s, fate).0)
    ensures Inspect(s, fate).1 == Done ==> Inspect(s, fate).0.alive == s.alive
  {
    hide Outside;
    OutsideSafe(s, fate.env);
  }

  lemma StillAlive(s: State, e: Effect, fate: Fate)
    ensures Issue(s, e, fate).1 == Done ==> Issue(s, e, fate).0.alive == s.alive
  {
  }

  /** One quota pass keeps the machine safe, whatever becomes of each of its effects. */
  lemma TickSafe(s: State, view: View, inspect: Fate, first: Fate, second: Fate)
    requires Safe(s) && s.alive
    ensures Safe(Reconcile(s, view, inspect, first, second).0)
  {
    hide Issue, SetStopped, Inspect;
    match view
    case Unreadable =>
    case OverQuota =>
      InspectSafe(s, inspect);
      var (s1, r1) := Inspect(s, inspect);
      if r1 == Done && s1.active {
        MarkSafe(s1, first);
        var (s2, r2) := SetStopped(s1, true, first);
        if r2 == Done { StopSafe(s2, second); }
      }
    case _ =>
      if s.memory {
        StartSafe(s, first);
        StillAlive(s, StartService, first);
        var (s1, r1) := Issue(s, StartService, first);
        if r1 == Done { ClearSafe(s1, second); }
      }
  }

  lemma ReleaseSafe(s: State, readable: bool, start: Fate, clear: Fate)
    requires Safe(s) && !s.alive
    ensures Safe(Release(s, readable, start, clear).0)
  {
    hide Issue;
    if readable && s.marker {
      StartSafe(s, start);
      StillAlive(s, StartService, start);
      var (s1, r1) := Issue(s, StartService, start);
      if r1 == Done { ClearSafe(s1, clear); }
    }
  }

  /**
   In every reachable state: a sing-box the monitor stopped has its marker persisted,
   and Start has been called without the marker only if a delete of the marker took
   effect while reporting failure.
   */
  lemma {:induction false} AlwaysSafe(events: seq<Event>)
    ensures Safe(Run(INITIAL, events))
  {
    if events != [] {
      AlwaysSafe(events[..|events| - 1]);
      var s := Run(INITIAL, events[..|events| - 1]);
      match events[|events| - 1]
      case Tick(view, inspect, first, second) => if s.alive { TickSafe(s, view, inspect, first, second); }
      case Disable(readable, start, clear) => if !s.alive { ReleaseSafe(s, readable, start, clear); }
      case _ =>
    }
  }

  /** No delete of the marker takes effect and reports failure; every other reply may be lost. */
  predicate ClearsAreAnswered(e: Event) {
    match e
    case Tick(view, _, _, second) => view == OverQuota || second.outcome != WorksButFails
    case Disable(_, _, clear) => clear.outcome != WorksButFails
    case _ => true
  }

  lemma SafeOwnership(s: State)
    requires Safe(s) && !s.clearLost
    ensures !s.unownedStart && (s.memory ==> s.marker)
  {
  }

  lemma StepsKeepReplies(s: State, env: Env, e: Effect)
    ensures Outside(s, env).clearLost == s.clearLost && Outside(s, env).unownedStart == s.unownedStart
    ensures Outside(s, env).marker == s.marker
    ensures Perform(s, e).clearLost == s.clearLost && Perform(s, e).unownedStart == s.unownedStart
    ensures Die(s).clearLost == s.clearLost && Die(s).unownedStart == s.unownedStart
  {
  }

  /** One effect: only a clear can lose its reply, and only a Start without the marker is unowned. */
  lemma IssueRecords(s: State, e: Effect, fate: Fate)
    requires fate.outcome != WorksButFails || e != SetMarker(false)
    ensures Issue(s, e, fate).0.clearLost == s.clearLost
  {
    hide Outside, Perform, Die;
    StepsKeepReplies(s, fate.env, e);
    var out := Outside(s, fate.env);
    var asked := if e.StartService? && !out.marker then out.(unownedStart := true) else out;
    StepsKeepReplies(asked, fate.env, e);
    StepsKeepReplies(Perform(asked, e), fate.env, e);
  }

  lemma IssueOwns(s: State, e: Effect, fate: Fate)
    ensures Issue(s, e, fate).0.unownedStart <==> s.unownedStart || (e.StartService? && !s.marker)
  {
    hide Outside, Perform, Die;
    StepsKeepReplies(s, fate.env, e);
    var out := Outside(s, fate.env);
    var asked := if e.StartService? && !out.marker then out.(unownedStart := true) else out;
    StepsKeepReplies(asked, fate.env, e);
    StepsKeepReplies(Perform(asked, e), fate.env, e);
  }

  lemma PassLosesNoClear(s: State, view: View, inspect: Fate, first: Fate, second: Fate)
    requires ClearsAreAnswered(Tick(view, inspect, first, second)) && !s.clearLost
    ensures !Reconcile(s, view, inspect, first, second).0.clearLost
  {
    hide Issue, Outside, Perform, Die;
    StepsKeepReplies(s, inspect.env, StopService);
    StepsKeepReplies(Outside(s, inspect.env), inspect.env, StopService);
    var (s1, r1) := if view == OverQuota then Inspect(s, inspect) else Issue(s, StartService, first);
    IssueRecords(s, StartService, first);
    IssueRecords(s1, SetMarker(true), first);
    if view == OverQuota {
      IssueRecords(SetStopped(s1, true, first).0, StopService, second);
    } else {
      IssueRecords(s1, SetMarker(false), second);
    }
  }

  lemma NoClearLost(s: State, e: Event)
    requires ClearsAreAnswered(e) && !s.clearLost
    ensures !Happen(s, e).clearLost
  {
    hide Issue;
    match e
    case Tick(view, inspect, first, second) =>
      PassLosesNoClear(s, view, inspect, first, second);
      hide Reconcile;
    case Disable(readable, start, clear) =>
      IssueRecords(s, StartService, start);
      IssueRecords(Issue(s, StartService, start).0, SetMarker(false), clear);
    case _ =>
  }

  /**
   What makes a Start unowned, exactly: a live pass within quota, or without limits,
   while memory still claims a stop whose marker is gone.
   */
  lemma UnownedStartExactly(s: State, e: Event)
    ensures Happen(s, e).unownedStart <==>
      s.unownedStart || (e.Tick? && s.alive && (e.view == WithinQuota || e.view == NoLimits) && s.memory && !s.marker)
  {
    hide Issue;
    match e
    case Tick(view, inspect, first, second) =>
      if s.alive { TickOwns(s, view, inspect, first, second); }
    case Disable(readable, start, clear) =>
      IssueOwns(s, StartService, start);
      IssueOwns(Issue(s, StartService, start).0, SetMarker(false), clear);
    case _ =>
  }

  lemma TickOwns(s: State, view: View, inspect: Fate, first: Fate, second: Fate)
    ensures Reconcile(s, view, inspect, first, second).0.unownedStart <==>
      s.unownedStart || ((view == WithinQuota || view == NoLimits) && s.memory && !s.marker)
  {
    hide Issue;
    match view
    case Unreadable =>
    case OverQuota =>
      var s1 := Inspect(s, inspect).0;
      StepsKeepReplies(s, inspect.env, StopService);
      StepsKeepReplies(Outside(s, inspect.env), inspect.env, StopService);
      IssueOwns(s1, SetMarker(true), first);
      IssueOwns(SetStopped(s1, true, first).0, StopService, second);
    case _ =>
      IssueOwns(s, StartService, first);
      IssueOwns(Issue(s, StartService, first).0, SetMarker(false), second);
  }

  /** It happens: a clear takes effect and reports failure, and the next pass starts the service once more. */
  lemma LostClearStartsUnowned()
    ensures var lost := Tick(WithinQuota, CALM, CALM, Fate(Quiet, WorksButFails));
      Run(INITIAL, [Boot(true), Tick(OverQuota, CALM, CALM, CALM), lost, Tick(WithinQuota, CALM, CALM, CALM)]).unownedStart
  {
    var e1, e2 := Boot(true), Tick(OverQuota, CALM, CALM, CALM);
    var e3, e4 := Tick(WithinQuota, CALM, CALM, Fate(Quiet, WorksButFails)), Tick(WithinQuota, CALM, CALM, CALM);
    var s1 := Happen(INITIAL, e1);
    var s2 := Happen(s1, e2);
    assert s2.alive && s2.memory && s2.marker;
    var s3 := Happen(s2, e3);
    assert s3.alive && s3.memory && !s3.marker;
    UnownedStartExactly(s3, e4);
    assert [e1][..0] == [] && [e1, e2][..1] == [e1] && [e1, e2, e3][..2] == [e1, e2] && [e1, e2, e3, e4][..3] == [e1, e2, e3];
    hide Happen;
    assert Run(INITIAL, [e1]) == s1;
    assert Run(INITIAL, [e1, e2]) == s2;
    assert Run(INITIAL, [e1, e2, e3]) == s3;
  }

  /** Unless a clear takes effect and reports failure, Start is only ever called while the marker is owned. */
  lemma {:induction false} StartsAreOwned(events: seq<Event>)
    requires forall e :: e in events && e.Tick? ==> e.view == OverQuota || e.second.outcome != WorksButFails
    requires forall e :: e in events && e.Disable? ==> e.clear.outcome != WorksButFails
    ensures !Run(INITIAL, events).clearLost && !Run(INITIAL, events).unownedStart
    ensures Run(INITIAL, events).memory ==> Run(INITIAL, events).marker
  {
    if events != [] {
      hide Happen, Safe;
      var prefix, last := events[..|events| - 1], events[|events| - 1];
      assert last in events && forall e :: e in prefix ==> e in events;
      StartsAreOwned(prefix);
      assert ClearsAreAnswered(last);
      NoClearLost(Run(INITIAL, prefix), last);
    }
    AlwaysSafe(events);
    SafeOwnership(Run(INITIAL, events));
  }

  /**
   A tick in which nothing fails: over quota it ends with the service down, marked as
   owned if this tick stopped it. Otherwise the marker ends clear exactly when memory
   agreed with it, and a stop that memory owned is undone. A second tick changes nothing.
   */
  lemma CalmTick(s: State, view: View)
    requires Safe(s) && s.alive && view != Unreadable
    ensures var (t, reply) := Reconcile(s, view, CALM, CALM, CALM);
      && reply == Done && t.alive
      && Reconcile(t, view, CALM, CALM, CALM) == (t, Done)
      && (view == OverQuota ==> !t.active && (s.active ==> t.marker && t.memory && t.held) && (!s.active ==> t == s))
      && (view != OverQuota ==>
            && (!t.marker <==> s.memory || !s.marker)
            && (s.memory ==> t.active && !t.memory) && (!s.memory ==> t == s))
  {
  }

  /** Some limited direction has used its limit and what was granted for it. */
  predicate UsedUp(l: Limits, p: Package, t: Totals) {
    Spent(l.inb, p.inb, t.inb) || Spent(l.outb, p.outb, t.outb) || Spent(l.total, p.total, t.inb + t.outb)
  }

  /** What a pass that goes well makes of limits, package and usage. */
  predicate Enforces(s: State, l: Limits, p: Package, t: Totals, after: State) {
    if UsedUp(l, p, t) then
      after == if s.active then s.(active := false, marker := true, memory := true, held := true) else s
    else if s.memory then
      after == s.(active := true, marker := false, memory := false, held := false, unownedStart := s.unownedStart || !s.marker)
    else after == s
  }

  /**
   A pass in which nothing fails, from the limits, the package and the usage: a running
   service is marked and stopped exactly if some limited direction is used up; otherwise
   a stop the monitor remembers is undone, and nothing else changes.
   */
  lemma QuotaIsEnforced(s: State, l: Limits, p: Package, t: Totals)
    requires Safe(s) && s.alive && t.inb <= MAX_INT64 && t.outb <= MAX_INT64
    requires l.inb <= MAX_UINT64 && l.outb <= MAX_UINT64 && l.total <= MAX_UINT64
    ensures Reconcile(s, ViewOf(l, p, t), CALM, CALM, CALM).1 == Done
    ensures Enforces(s, l, p, t, Reconcile(s, ViewOf(l, p, t), CALM, CALM, CALM).0)
  {
    ExceededMeansSpent(l, p, t);
    hide Exceeded, WithPackage;
  }

  /** Disabling the monitor when nothing fails: a marked stop is undone and its marker cleared; without a marker nothing happens. */
  lemma ReleaseUndoesStop(s: State)
    ensures Release(s, true, CALM, CALM) ==
      (if s.marker then s.(active := true, held := false, marker := false) else s, Done)
    ensures !s.alive ==> Happen(s, Disable(true, CALM, CALM)) == Release(s, true, CALM, CALM).0
  {
  }

  /** Whatever becomes of a release, the marker goes only once the service was asked to start, and a later one that goes well ends the stop. */
  lemma ReleaseCanBeRepeated(s: State, readable: bool, start: Fate, clear: Fate)
    requires Safe(s) && !s.alive
    ensures var (t, reply) := Release(s, readable, start, clear);
      && (s.marker && !t.marker ==> readable && start.outcome == Works)
      && (reply == Done && readable ==> !t.marker && !t.held)
      && !Release(t, true, CALM, CALM).0.marker && !Release(t, true, CALM, CALM).0.held
  {
    ReleaseSafe(s, readable, start, clear);
  }

  /** A stop survives a crash anywhere: the next process that can read its marker ends the stop. */
  lemma CrashThenRecover(s: State, view: View)
    requires Safe(s) && !s.alive && s.held && (view == WithinQuota || view == NoLimits)
    ensures var t := Reconcile(Restart(s, true), view, CALM, CALM, CALM).0; t.active && !t.marker && !t.held
  {
  }

  /** A pass during which nobody else starts the service. */
  predicate NobodyStarts(e: Event) {
    e.Tick? && e.inspect.env != SomeoneStarts
  }

  /** A stop that is down, marked, and not known to this process. */
  predicate Stranded(s: State) {
    s.held && s.marker && !s.active && !s.memory
  }

  lemma StrandedPass(s: State, e: Event)
    requires Stranded(s) && NobodyStarts(e)
    ensures Happen(s, e) == s || Happen(s, e) == Die(s)
  {
  }

  /**
   A process that could not read the marker at start never undoes the stop: whatever
   its passes see and whatever becomes of their effects, nothing changes unless somebody
   else starts the service or the process dies.
   */
  lemma {:induction false} UnreadMarkerStrands(s: State, events: seq<Event>)
    requires Safe(s) && !s.alive && s.held
    requires forall e :: e in events ==> e.Tick? && e.inspect.env != SomeoneStarts
    ensures var t := Run(Restart(s, false), events);
      && (t == Restart(s, false) || t == Die(Restart(s, false)))
      && Stranded(t)
  {
    if events != [] {
      var prefix, last := events[..|events| - 1], events[|events| - 1];
      assert last in events && forall e :: e in prefix ==> e in events;
      UnreadMarkerStrands(s, prefix);
      StrandedPass(Run(Restart(s, false), prefix), last);
    }
  }

  /** A grant that lifts the quota puts a stopped node back into service at once. */
  lemma GrantRestoresService(s: State, l: Limits, before: Package, delta: Package, t: Totals)
    requires Safe(s) && s.alive && s.memory && Counters(l)
    requires t.inb <= MAX_INT64 && t.outb <= MAX_INT64
    requires ViewOf(l, before, t) == OverQuota
    requires var after := Package(before.inb + delta.inb, before.outb + delta.outb, before.total + delta.total);
      !Spent(l.inb, after.inb, t.inb) && !Spent(l.outb, after.outb, t.outb) && !Spent(l.total, after.total, t.inb + t.outb)
    ensures var after := Package(before.inb + delta.inb, before.outb + delta.outb, before.total + delta.total);
      var u := Reconcile(s, ViewOf(l, after, t), CALM, CALM, CALM).0;
      u.active && !u.marker && !u.memory
  {
    var after := Package(before.inb + delta.inb, before.outb + delta.outb, before.total + delta.total);
    ExceededMeansSpent(l, after, t);
    CalmTick(s, ViewOf(l, after, t));
  }

  // ------------------------------------------------------------ the monitor object

  class Monitor {
    var stoppedByQuota: bool
    /** The persisted marker, the service, and the bookkeeping about them. */
    var marker: bool
    var active: bool
    ghost var held: bool
    ghost var clearLost: bool
    ghost var unownedStart: bool
    ghost var alive: bool

    ghost function Now(): State
      reads this
    {
      State(alive, stoppedByQuota, marker, active, held, clearLost, unownedStart)
    }

    ghost predicate Valid()
      reads this
    {
      Safe(Now())
    }

    /** New: the marker of an earlier process is restored, unless it cannot be read. */
    constructor (earlier: State, readable: bool)
      requires Safe(earlier) && !earlier.alive
      ensures Valid() && Now() == Restart(earlier, readable)
    {
      marker, active := earlier.marker, earlier.active;
      held, clearLost, unownedStart := earlier.held, earlier.clearLost, earlier.unownedStart;
      alive := true;
      stoppedByQuota := if readable then earlier.marker else false;
    }

    /** What others do to the service before the next call reaches it. */
    method Surroundings(env: Env)
      modifies this`active, this`held
      ensures Now() == Outside(old(Now()), env)
    {
      if env == SomeoneStarts {
        active, held := true, false;
      } else if env == SomeoneStops {
        active := false;
      }
    }

    /** The service controller's Start, with its surroundings. */
    method Start(fate: Fate) returns (reply: Reply)
      modifies this
      ensures (Now(), reply) == Issue(old(Now()), StartService, fate)
    {
      Surroundings(fate.env);
      unownedStart := unownedStart || !marker;
      if fate.outcome == DiesBefore { stoppedByQuota, alive := false, false; return Dead; }
      if fate.outcome == Fails { return Error; }
      active, held := true, false;
      if fate.outcome == DiesAfter { stoppedByQuota, alive := false, false; return Dead; }
      return if fate.outcome == WorksButFails then Error else Done;
    }

    /** The service controller's Stop, with its surroundings. */
    method Stop(fate: Fate) returns (reply: Reply)
      modifies this
      ensures (Now(), reply) == Issue(old(Now()), StopService, fate)
    {
      Surroundings(fate.env);
      if fate.outcome == DiesBefore { stoppedByQuota, alive := false, false; return Dead; }
      if fate.outcome == Fails { return Error; }
      held := held || active;
      active := false;
      if fate.outcome == DiesAfter { stoppedByQuota, alive := false, false; return Dead; }
      return if fate.outcome == WorksButFails then Error else Done;
    }

    /** Store.SetQuotaStopped, with its surroundings. */
    method Persist(to: bool, fate: Fate) returns (reply: Reply)
      modifies this
      ensures (Now(), reply) == Issue(old(Now()), SetMarker(to), fate)
    {
      Surroundings(fate.env);
      if fate.outcome == DiesBefore { stoppedByQuota, alive := false, false; return Dead; }
      if fate.outcome == Fails { return Error; }
      marker := to;
      if fate.outcome == DiesAfter {
        stoppedByQuota, alive := false, false;
        return Dead;
      }
      if fate.outcome == WorksButFails {
        clearLost := clearLost || !to;
        return Error;
      }
      return Done;
    }

    method SetStoppedByQuota(to: bool, fate: Fate) returns (reply: Reply)
      modifies this
      ensures (Now(), reply) == SetStopped(old(Now()), to, fate)
    {
      reply := Persist(to, fate);
      if reply != Done {
        return reply;
      }
      stoppedByQuota := to;
    }

    method IsActive(fate: Fate) returns (answer: bool, reply: Reply)
      modifies this
      ensures (Now(), reply) == Inspect(old(Now()), fate)
      ensures reply == Done ==> answer == active
    {
      Surroundings(fate.env);
      if fate.outcome == DiesBefore || fate.outcome == DiesAfter {
        stoppedByQuota, alive := false, false;
        return false, Dead;
      }
      return active, if fate.outcome == Works then Done else Error;
    }

    /** One quota pass: the ownership flag is written before a stop and cleared after a start. */
    method ReconcileQuota(limits: Limits, used: Totals, package: Package, readable: bool,
                          inspect: Fate, first: Fate, second: Fate) returns (reply: Reply)
      requires Valid() && alive
      requires limits.inb <= MAX_UINT64 && limits.outb <= MAX_UINT64 && limits.total <= MAX_UINT64
      modifies this
      ensures Valid()
      ensures var view := if limits != UNLIMITED && !readable then Unreadable else ViewOf(limits, package, used);
        (Now(), reply) == Reconcile(old(Now()), view, inspect, first, second)
      ensures limits != UNLIMITED && !readable ==> Now() == old(Now()) && reply == Error
      ensures readable && inspect == first == second == CALM && used.inb <= MAX_INT64 && used.outb <= MAX_INT64 ==>
        reply == Done && Enforces(old(Now()), limits, package, used, Now())
    {
      if used.inb <= MAX_INT64 && used.outb <= MAX_INT64 { QuotaIsEnforced(Now(), limits, package, used); }
      ghost var view := if limits != UNLIMITED && !readable then Unreadable else ViewOf(limits, package, used);
      TickSafe(Now(), view, inspect, first, second);
      if limits == UNLIMITED {
        if stoppedByQuota {
          reply := Start(first);
          if reply != Done { return reply; }
          reply := SetStoppedByQuota(false, second);
          return reply;
        }
        return Done;
      }
      if !readable {
        return Error;
      }
      if Exceeded(WithPackage(limits, package), used) {
        var running;
        running, reply := IsActive(inspect);
        if reply != Done { return reply; }
        if running {
          reply := SetStoppedByQuota(true, first);
          if reply != Done { return reply; }
          reply := Stop(second);
          return reply;
        }
      } else if stoppedByQuota {
        reply := Start(first);
        if reply != Done { return reply; }
        reply := SetStoppedByQuota(false, second);
        return reply;
      }
      return Done;
    }
  }
}
