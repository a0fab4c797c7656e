/**
 The agent's monitor supervisor (cmd/singbox-deploy-agent/monitor.go) as a machine of
 small steps: reloads, stops, retry timers, sampler runs and API reads interleave at
 every point between two lock operations. lifecycle serialises reload and stop; mu
 guards the published run; a done channel announces that a run has let go of its store.
 */
module Supervisor {
  import opened Wrappers

  datatype Job = Reload | Stop | Retry | Timer(id: nat)

  /** Where a goroutine stands. Want... is a lock operation that may have to wait. */
  datatype PC =
    | WantLifecycle(job: Job)
    | Entered(job: Job)
    | WantMuClear(job: Job)
    | Clearing(job: Job)
    | Cancelling(job: Job, run: nat)
    | WaitDone(job: Job, run: nat)
    | Building
    | Scheduling(job: Job)
    | WantMuRead(job: Job)
    | Reading(job: Job)
    | Deciding(job: Job, active: bool)
    | WantMuPublish
    | Publishing
    | Starting(run: nat)
    | HandOver
    | Leaving(job: Job)
    | Sampling(run: nat)
    | Exited(run: nat)
    | WantMuRetire(run: nat)
    | Retiring(run: nat)
    | Closing(run: nat, retry: bool)
    | WaitRetired(run: nat)
    | WantServe
    | Serving(handler: Option<nat>)
    | Finished

  /**
   lifecycle and writer name the goroutine holding that lock. published stands for the
   fields mu guards, which are always set and cleared together. cancelled and closed are
   the runs whose context is cancelled and whose done channel is closed. stopReturned,
   disarmed, triggered and wanted are bookkeeping: a stop call has returned, a timer was
   cancelled, a timer led to a reload, the last reload to look found monitoring switched
   on.
   */
  datatype State = State(
    threads: seq<PC>, lifecycle: Option<nat>, writer: Option<nat>,
    published: Option<nat>, runs: nat, cancelled: set<nat>, closed: set<nat>,
    retry: Option<nat>, timers: nat, stopped: bool, shutdown: bool,
    stopReturned: bool, disarmed: set<nat>, triggered: set<nat>, wanted: bool)

  const INITIAL: State := State([], None, None, None, 0, {}, {}, None, 0, false, false, false, {}, {}, false)

  predicate HoldsLifecycle(pc: PC) {
    match pc
    case Entered(_) => true
    case WantMuClear(_) => true
    case Clearing(_) => true
    case Cancelling(_, _) => true
    case WaitDone(_, _) => true
    case Building => true
    case Scheduling(_) => true
    case WantMuRead(_) => true
    case Reading(_) => true
    case Deciding(_, _) => true
    case WantMuPublish => true
    case Publishing => true
    case Starting(_) => true
    case HandOver => true
    case Leaving(_) => true
    case _ => false
  }

  predicate Writes(pc: PC) {
    pc.Clearing? || pc.Publishing? || pc.Retiring?
  }

  predicate Reads(pc: PC) {
    pc.Reading? || pc.Serving?
  }

  predicate WantsWrite(pc: PC) {
    pc.WantMuClear? || pc.WantMuPublish? || pc.WantMuRetire?
  }

  predicate WantsRead(pc: PC) {
    pc.WantMuRead? || pc.WantServe?
  }

  /** The run a goroutine is carrying, until its done channel is closed. */
  function Carries(pc: PC): Option<nat> {
    match pc
    case Starting(r) => Some(r)
    case Sampling(r) => Some(r)
    case Exited(r) => Some(r)
    case WantMuRetire(r) => Some(r)
    case Retiring(r) => Some(r)
    case Closing(r, _) => Some(r)
    case _ => None
  }

  predicate MuFree(s: State) {
    s.writer.None? && forall j :: 0 <= j < |s.threads| ==> !Reads(s.threads[j])
  }

  /** The step of a goroutine may happen. A reader overtaking a pending writer is let in here and ruled out by Ready. */
  predicate CanStep(s: State, pc: PC) {
    if pc.WantLifecycle? then s.lifecycle.None?
    else if WantsWrite(pc) then MuFree(s)
    else if WantsRead(pc) then s.writer.None?
    else if pc.WaitDone? then pc.run in s.closed
    else if pc.WaitRetired? then pc.run in s.closed
    else !pc.Finished?
  }

  /** After stopRunning, a reload goes on building and a stop is done. */
  function AfterStop(job: Job): PC {
    if job.Reload? then Building else Leaving(job)
  }

  datatype Choice = Quiet | Fail | Start

  /** Where a goroutine goes from pc. */
  function NextPC(s: State, pc: PC, choice: Choice): PC {
    match pc
    case WantLifecycle(job) => Entered(job)
    case Entered(job) => (
      match job
      case Reload => if s.stopped then Leaving(job) else WantMuClear(job)
      case Stop => WantMuClear(job)
      case Retry => Scheduling(job)
      case Timer(t) => if s.retry == Some(t) && !s.stopped then HandOver else Leaving(job))
    case WantMuClear(job) => Clearing(job)
    case Clearing(job) => if s.published.None? then AfterStop(job) else Cancelling(job, s.published.value)
    case Cancelling(job, r) => WaitDone(job, r)
    case WaitDone(job, r) => AfterStop(job)
    case Building => (match choice case Quiet => Leaving(Reload) case Fail => Scheduling(Reload) case Start => WantMuPublish)
    case Scheduling(job) => if s.stopped || s.retry.Some? || s.shutdown then Leaving(job) else WantMuRead(job)
    case WantMuRead(job) => Reading(job)
    case Reading(job) => Deciding(job, s.published.Some?)
    case Deciding(job, active) => Leaving(job)
    case WantMuPublish => Publishing
    case Publishing => Starting(s.runs)
    case Starting(r) => Leaving(Reload)
    case HandOver => WantLifecycle(Reload)
    case Leaving(job) => Finished
    case Sampling(r) => Exited(r)
    case Exited(r) => if r in s.cancelled || s.shutdown then Closing(r, false) else WantMuRetire(r)
    case WantMuRetire(r) => Retiring(r)
    case Retiring(r) => Closing(r, s.published == Some(r))
    case Closing(r, retry) => if retry then Closing(r, false) else Finished
    case WaitRetired(r) => WantLifecycle(Retry)
    case WantServe => Serving(s.published)
    case Serving(_) => Finished
    case Finished => Finished
  }

  /** The goroutine a step starts: the sampler of a new run, or the retry after an exit. */
  function Children(pc: PC): seq<PC> {
    match pc
    case Starting(r) => [Sampling(r)]
    case Closing(r, retry) => if retry then [WaitRetired(r)] else []
    case _ => []
  }

  /** cancelRetryLocked is called on entering a reload that goes ahead, and a stop. */
  predicate Disarms(s: State, pc: PC) {
    pc.Entered? && (pc.job.Stop? || (pc.job.Reload? && !s.stopped)) && s.retry.Some?
  }

  /** A timer callback that finds its own timer still set takes it. */
  predicate TakesTimer(s: State, pc: PC) {
    pc.Entered? && pc.job.Timer? && s.retry == Some(pc.job.id)
  }

  /** One step of goroutine i, field by field. */
  function Step(s: State, i: nat, choice: Choice): State
    requires i < |s.threads| && CanStep(s, s.threads[i])
  {
    var pc := s.threads[i];
    var arms := pc.Deciding? && !pc.active;
    State(
      s.threads[i := NextPC(s, pc, choice)] + Children(pc),
      if pc.WantLifecycle? then Some(i) else if pc.Leaving? || pc.HandOver? then None else s.lifecycle,
      if WantsWrite(pc) then Some(i) else if Writes(pc) then None else s.writer,
      if pc.Publishing? then Some(s.runs)
      else if pc.Clearing? || (pc.Retiring? && s.published == Some(pc.run)) then None
      else s.published,
      if pc.Publishing? then s.runs + 1 else s.runs,
      if pc.Cancelling? then s.cancelled + {pc.run} else s.cancelled,
      if pc.Closing? && !pc.retry then s.closed + {pc.run} else s.closed,
      if arms then Some(s.timers) else if Disarms(s, pc) || TakesTimer(s, pc) then None else s.retry,
      if arms then s.timers + 1 else s.timers,
      s.stopped || pc == Entered(Stop),
      s.shutdown,
      s.stopReturned || pc == Leaving(Stop),
      if Disarms(s, pc) then s.disarmed + {s.retry.value} else s.disarmed,
      if TakesTimer(s, pc) && !s.stopped then s.triggered + {pc.job.id} else s.triggered,
      if pc.Building? then choice != Quiet else s.wanted)
  }

  function Spawn(s: State, pc: PC): State {
    s.(threads := s.threads + [pc])
  }

  datatype Action = Go(i: nat, choice: Choice) | CallReload | CallStop | Request | Fire(timer: nat) | EndProcess

  /** Timers may fire late: the callback of a cancelled timer may already be on its way. */
  predicate Possible(s: State, a: Action) {
    match a
    case Go(i, _) => i < |s.threads| && CanStep(s, s.threads[i])
    case Fire(t) => t < s.timers
    case _ => true
  }

  function Next(s: State, a: Action): State
    requires Possible(s, a)
  {
    match a
    case Go(i, choice) => Step(s, i, choice)
    case CallReload => Spawn(s, WantLifecycle(Reload))
    case CallStop => Spawn(s, WantLifecycle(Stop))
    case Request => Spawn(s, WantServe)
    case Fire(t) => Spawn(s, WantLifecycle(Timer(t)))
    case EndProcess => s.(shutdown := true)
  }

  // ------------------------------------------------------------ what every step keeps

  ghost predicate Locks(s: State) {
    && (forall i :: 0 <= i < |s.threads| ==> (HoldsLifecycle(s.threads[i]) <==> s.lifecycle == Some(i)))
    && (forall i :: 0 <= i < |s.threads| ==> (Writes(s.threads[i]) <==> s.writer == Some(i)))
    && (s.writer.Some? ==> forall i :: 0 <= i < |s.threads| ==> !Reads(s.threads[i]))
    && (s.lifecycle.Some? ==> s.lifecycle.value < |s.threads|)
    && (s.writer.Some? ==> s.writer.value < |s.threads|)
  }

  /** A run is carried by one goroutine until its done channel is closed. */
  ghost predicate Runs(s: State) {
    && (forall i, j :: 0 <= i < j < |s.threads| && Carries(s.threads[i]).Some? ==> Carries(s.threads[i]) != Carries(s.threads[j]))
    && (forall i :: 0 <= i < |s.threads| && Carries(s.threads[i]).Some? ==>
          Carries(s.threads[i]).value < s.runs && Carries(s.threads[i]).value !in s.closed)
    && (forall r :: r in s.closed ==> r < s.runs)
  }

  function Holder(s: State): PC {
    if s.lifecycle.Some? && s.lifecycle.value < |s.threads| then s.threads[s.lifecycle.value] else Finished
  }

  /** The run a stopping goroutine has unpublished and is waiting for. */
  function Drains(pc: PC): Option<nat> {
    match pc
    case Cancelling(_, r) => Some(r)
    case WaitDone(_, r) => Some(r)
    case _ => None
  }

  function Draining(s: State): Option<nat> {
    Drains(Holder(s))
  }

  ghost predicate Publication(s: State) {
    && (s.published.Some? ==> s.published.value < s.runs && s.published.value !in s.cancelled)
    && (Draining(s).Some? ==> s.published.None? && Draining(s).value < s.runs)
    && (Holder(s).Building? || Holder(s).WantMuPublish? || Holder(s).Publishing? ==> s.published.None?)
    && (Holder(s).WaitDone? ==> Holder(s).run in s.cancelled)
    && (forall r :: r in s.cancelled ==> r < s.runs)
  }

  ghost predicate Liveness(s: State) {
    && (Holder(s).Starting? ==> s.published == Some(Holder(s).run))
    && (forall i :: 0 <= i < |s.threads| && s.threads[i].Sampling? ==>
          s.published == Some(s.threads[i].run) || Draining(s) == Some(s.threads[i].run))
  }

  /** A published run's store is open, unless the whole process is ending. */
  ghost predicate OpenStore(s: State) {
    && (s.published.Some? && !s.shutdown ==> s.published.value !in s.closed)
    && (!s.shutdown ==> forall i :: 0 <= i < |s.threads| && s.threads[i].Closing? ==> s.published != Some(s.threads[i].run))
    && (forall i :: 0 <= i < |s.threads| && s.threads[i].Serving? && s.threads[i].handler.Some? ==>
          s.published == s.threads[i].handler)
  }

  /** Past its check of stopped, and still able to start a run. */
  predicate MayStart(pc: PC) {
    match pc
    case WantMuClear(job) => job.Reload?
    case Clearing(job) => job.Reload?
    case Cancelling(job, _) => job.Reload?
    case WaitDone(job, _) => job.Reload?
    case Building => true
    case WantMuPublish => true
    case Publishing => true
    case Starting(_) => true
    case _ => false
  }

  /** Part of a stop call, past setting stopped. */
  predicate ServesStop(pc: PC) {
    match pc
    case WantMuClear(job) => job.Stop?
    case Clearing(job) => job.Stop?
    case Cancelling(job, _) => job.Stop?
    case WaitDone(job, _) => job.Stop?
    case Scheduling(job) => job.Stop?
    case WantMuRead(job) => job.Stop?
    case Reading(job) => job.Stop?
    case Deciding(job, _) => job.Stop?
    case Leaving(job) => job.Stop?
    case _ => false
  }

  ghost predicate Stopping(s: State) {
    && (s.stopped ==> !MayStart(Holder(s)))
    && (s.stopped && s.published.Some? ==> Holder(s).WantMuClear? || Holder(s).Clearing?)
    && (s.stopReturned ==> s.stopped && s.published.None? && Draining(s).None?)
    && (ServesStop(Holder(s)) ==> s.stopped)
  }

  ghost predicate Timers(s: State) {
    && (s.retry.Some? ==> s.retry.value < s.timers && s.retry.value !in s.disarmed && s.retry.value !in s.triggered)
    && (forall t :: t in s.disarmed ==> t < s.timers && t !in s.triggered)
    && (forall t :: t in s.triggered ==> t < s.timers)
  }

  // How a goroutine's place changes.

  lemma PlaceLocks(s: State, pc: PC, choice: Choice)
    ensures var to := NextPC(s, pc, choice);
      && (HoldsLifecycle(to) <==> pc.WantLifecycle? || (HoldsLifecycle(pc) && !pc.Leaving? && !pc.HandOver?))
      && (Writes(to) <==> WantsWrite(pc))
      && (Reads(to) <==> WantsRead(pc))
      && !(WantsWrite(pc) && Writes(pc))
      && (pc.Leaving? || pc.HandOver? ==> HoldsLifecycle(pc)) && (pc.WantLifecycle? ==> !HoldsLifecycle(pc))
  {
  }

  lemma StepLocks(s: State, i: nat, choice: Choice)
    requires i < |s.threads| && CanStep(s, s.threads[i]) && Locks(s)
    ensures Locks(Step(s, i, choice))
  {
    hide NextPC, HoldsLifecycle;
    PlaceLocks(s, s.threads[i], choice);
    ChildrenHoldNothing(s.threads[i]);
  }

  lemma ChildrenHoldNothing(pc: PC)
    ensures forall c :: c in Children(pc) ==> !HoldsLifecycle(c) && !Writes(c) && !Reads(c)
  {
  }

  lemma PlaceRuns(s: State, pc: PC, choice: Choice)
    ensures Carries(NextPC(s, pc, choice)) ==
      if pc.Publishing? then Some(s.runs)
      else if pc.Starting? || (pc.Closing? && !pc.retry) then None
      else Carries(pc)
    ensures |Children(pc)| <= 1
    ensures forall c :: c in Children(pc) ==> Carries(c) == if pc.Starting? then Carries(pc) else None
    ensures pc.Starting? || (pc.Closing? && !pc.retry) ==> Carries(pc) == Some(pc.run)
  {
  }

  lemma StepRuns(s: State, i: nat, choice: Choice)
    requires i < |s.threads| && CanStep(s, s.threads[i]) && Runs(s)
    ensures Runs(Step(s, i, choice))
  {
    hide NextPC;
    PlaceRuns(s, s.threads[i], choice);
    RunsKept(s, i, Step(s, i, choice), Children(s.threads[i]));
  }

  lemma RunsKept(s: State, i: nat, s': State, children: seq<PC>)
    requires i < |s.threads| && Runs(s) && |children| <= 1 && |s'.threads| == |s.threads| + |children|
    requires s'.threads == s.threads[i := s'.threads[i]] + children
    requires var pc := s.threads[i];
      && Carries(s'.threads[i]) == (if pc.Publishing? then Some(s.runs)
                                   else if pc.Starting? || (pc.Closing? && !pc.retry) then None else Carries(pc))
      && (forall c :: c in children ==> Carries(c) == if pc.Starting? then Carries(pc) else None)
      && (pc.Starting? || (pc.Closing? && !pc.retry) ==> Carries(pc) == Some(pc.run))
      && s'.runs == (if pc.Publishing? then s.runs + 1 else s.runs)
      && s'.closed == (if pc.Closing? && !pc.retry then s.closed + {pc.run} else s.closed)
    ensures Runs(s')
  {
    hide Carries;
    var t, t' := s.threads, s'.threads;
    assert forall j :: 0 <= j < |t| && j != i ==> t'[j] == t[j];
    assert |t'| > |t| ==> t'[|t|] in children;
    forall j, k | 0 <= j < k < |t'| && Carries(t'[j]).Some? ensures Carries(t'[j]) != Carries(t'[k]) {
      assert Carries(t[j]).Some? || t[j].Publishing?;
      assert k < |t| ==> Carries(t[j]) != Carries(t[k]) || Carries(t[j]).None?;
      assert k == |t| ==> Carries(t[i]) == Carries(t'[k]) || Carries(t'[k]).None?;
    }
  }

  lemma HolderStep(s: State, i: nat, choice: Choice)
    requires i < |s.threads| && CanStep(s, s.threads[i]) && Locks(s)
    ensures var pc := s.threads[i];
      var to := NextPC(s, pc, choice);
      Holder(Step(s, i, choice)) == if HoldsLifecycle(to) then to else if HoldsLifecycle(pc) then Finished else Holder(s)
    ensures HoldsLifecycle(s.threads[i]) ==> Holder(s) == s.threads[i]
    ensures s.threads[i].WantLifecycle? ==> Holder(s) == Finished
  {
    PlaceLocks(s, s.threads[i], choice);
    hide NextPC, HoldsLifecycle;
  }

  lemma PlaceDrains(s: State, pc: PC, choice: Choice)
    ensures var to := NextPC(s, pc, choice);
      && Drains(to) == (if pc.Clearing? then s.published else if pc.Cancelling? then Some(pc.run) else None)
      && (Drains(pc).Some? ==> HoldsLifecycle(pc) && Drains(pc).value == pc.run)
      && (to.Building? || to.WantMuPublish? || to.Publishing? ==>
            pc.Building? || pc.WantMuPublish? || pc.WaitDone? || (pc.Clearing? && s.published.None?))
      && (to.WaitDone? <==> pc.Cancelling?) && (to.WaitDone? ==> to.run == pc.run)
      && (to.Starting? <==> pc.Publishing?) && (to.Starting? ==> to.run == s.runs)
      && (pc.Clearing? || pc.Publishing? || pc.Cancelling? ==> HoldsLifecycle(pc) && HoldsLifecycle(to))
      && (pc.Retiring? ==> !HoldsLifecycle(pc) && !HoldsLifecycle(to))
  {
  }

  lemma StepPublication(s: State, i: nat, choice: Choice)
    requires i < |s.threads| && CanStep(s, s.threads[i]) && Locks(s) && Publication(s)
    ensures Publication(Step(s, i, choice))
  {
    HolderStep(s, i, choice);
    PlaceDrains(s, s.threads[i], choice);
    hide NextPC, CanStep, Children, Locks, HoldsLifecycle, Holder;
  }

  lemma PlaceSampling(s: State, pc: PC, choice: Choice)
    ensures !NextPC(s, pc, choice).Sampling?
    ensures forall c :: c in Children(pc) && c.Sampling? ==> pc.Starting? && c.run == pc.run
  {
  }

  lemma StepLiveness(s: State, i: nat, choice: Choice)
    requires i < |s.threads| && CanStep(s, s.threads[i]) && Locks(s) && Runs(s) && Publication(s) && Liveness(s)
    ensures Liveness(Step(s, i, choice))
  {
    HolderStep(s, i, choice);
    PlaceDrains(s, s.threads[i], choice);
    PlaceSampling(s, s.threads[i], choice);
    hide NextPC, Children, Locks, HoldsLifecycle, Holder, Publication;
  }

  lemma PlaceClosing(s: State, pc: PC, choice: Choice)
    ensures var to := NextPC(s, pc, choice);
      && (to.Closing? ==>
            || (pc.Closing? && pc.run == to.run)
            || (pc.Retiring? && pc.run == to.run)
            || (pc.Exited? && pc.run == to.run && (pc.run in s.cancelled || s.shutdown)))
      && (to.Serving? ==> pc.WantServe? && to.handler == s.published)
    ensures forall c :: c in Children(pc) ==> !c.Closing? && !c.Serving?
    ensures pc.Retiring? || pc.Closing? ==> Carries(pc) == Some(pc.run)
  {
  }

  /** What mu protects can only change under its write lock, and then nobody reads. */
  lemma PublishedUnderLock(s: State, i: nat, choice: Choice)
    requires i < |s.threads| && CanStep(s, s.threads[i]) && Locks(s) && Publication(s)
    ensures Step(s, i, choice).published != s.published ==> forall j :: 0 <= j < |s.threads| ==> !s.threads[j].Serving?
    ensures var p := Step(s, i, choice).published; p == s.published || p.None? || (p == Some(s.runs) && s.threads[i].Publishing?)
    ensures s.threads[i].Retiring? ==> Step(s, i, choice).published != Some(s.threads[i].run)
  {
    hide NextPC, Children, HoldsLifecycle, Publication;
    if Writes(s.threads[i]) {
      assert forall j :: 0 <= j < |s.threads| ==> !Reads(s.threads[j]);
    }
  }

  lemma StepOpenStore(s: State, i: nat, choice: Choice)
    requires i < |s.threads| && CanStep(s, s.threads[i]) && Locks(s) && Runs(s) && Publication(s) && OpenStore(s)
    ensures OpenStore(Step(s, i, choice))
  {
    hide NextPC, Children, Locks, Carries, Draining, Holder;
    PlaceClosing(s, s.threads[i], choice);
    PublishedUnderLock(s, i, choice);
    var s' := Step(s, i, choice);
    assert forall j :: 0 <= j < |s.threads| && j != i ==> s'.threads[j] == s.threads[j];
    assert forall j :: |s.threads| <= j < |s'.threads| ==> s'.threads[j] in Children(s.threads[i]);
    forall j | 0 <= j < |s'.threads| && s'.threads[j].Closing? && !s'.shutdown ensures s'.published != Some(s'.threads[j].run) {
      if j < |s.threads| && j != i {
        ClosingCarries(s, j);
      } else {
        assert j == i;
      }
    }
  }

  lemma ClosingCarries(s: State, j: nat)
    requires j < |s.threads| && s.threads[j].Closing? && Runs(s)
    ensures s.threads[j].run < s.runs
  {
    assert Carries(s.threads[j]) == Some(s.threads[j].run);
  }

  lemma StepStopping(s: State, i: nat, choice: Choice)
    requires i < |s.threads| && CanStep(s, s.threads[i]) && Locks(s) && Publication(s) && Stopping(s)
    ensures Stopping(Step(s, i, choice))
  {
    HolderStep(s, i, choice);
  }

  lemma StepTimers(s: State, i: nat, choice: Choice)
    requires i < |s.threads| && CanStep(s, s.threads[i]) && Timers(s)
    ensures Timers(Step(s, i, choice))
  {
    hide NextPC, CanStep, Children;
  }

  /** Every run that exists is carried by somebody or has let go, and only such runs are waited for. */
  ghost predicate Carried(s: State) {
    && (forall r: nat :: r < s.runs && r !in s.closed ==> exists i :: 0 <= i < |s.threads| && Carries(s.threads[i]) == Some(r))
    && (forall i :: 0 <= i < |s.threads| && s.threads[i].WaitRetired? ==> s.threads[i].run < s.runs)
  }

  lemma StepCarried(s: State, i: nat, choice: Choice)
    requires i < |s.threads| && CanStep(s, s.threads[i]) && Runs(s) && Carried(s)
    ensures Carried(Step(s, i, choice))
  {
    var pc, s' := s.threads[i], Step(s, i, choice);
    PlaceRuns(s, pc, choice);
    PlaceRetired(s, pc, choice);
    hide NextPC, Carries, Children;
    assert forall j :: 0 <= j < |s.threads| && j != i ==> s'.threads[j] == s.threads[j];
    assert forall j :: |s.threads| <= j < |s'.threads| ==> s'.threads[j] in Children(pc);
    forall r: nat | r < s'.runs && r !in s'.closed
      ensures exists j :: 0 <= j < |s'.threads| && Carries(s'.threads[j]) == Some(r)
    {
      if r < s.runs {
        var j :| 0 <= j < |s.threads| && Carries(s.threads[j]) == Some(r);
        if j != i {
          assert Carries(s'.threads[j]) == Some(r);
        } else if pc.Starting? {
          assert s'.threads[|s.threads|] in Children(pc);
        } else {
          assert Carries(s'.threads[i]) == Some(r);
        }
      } else {
        assert Carries(s'.threads[i]) == Some(r);
      }
    }
  }

  lemma PlaceRetired(s: State, pc: PC, choice: Choice)
    ensures !NextPC(s, pc, choice).WaitRetired?
    ensures forall c :: c in Children(pc) && c.WaitRetired? ==> Carries(pc) == Some(c.run)
    ensures |Children(pc)| == if pc.Starting? || (pc.Closing? && pc.retry) then 1 else 0
  {
  }

  ghost predicate Inv(s: State) {
    Locks(s) && Runs(s) && Publication(s) && Liveness(s) && OpenStore(s) && Stopping(s) && Timers(s) && Carried(s)
  }

  lemma SpawnKeepsOthers(s: State, pc: PC)
    requires Locks(s) && (pc.WantLifecycle? || pc.WantServe?)
    ensures Locks(Spawn(s, pc)) && Holder(Spawn(s, pc)) == Holder(s)
  {
    hide HoldsLifecycle;
    assert !HoldsLifecycle(pc) by { NewcomerHoldsNothing(pc); }
  }

  lemma NewcomerHoldsNothing(pc: PC)
    requires pc.WantLifecycle? || pc.WantServe?
    ensures !HoldsLifecycle(pc) && Carries(pc).None?
  {
  }

  lemma SpawnKeepsRuns(s: State, pc: PC)
    requires Runs(s) && Carried(s) && (pc.WantLifecycle? || pc.WantServe?)
    ensures Runs(Spawn(s, pc)) && Carried(Spawn(s, pc))
  {
    hide Carries;
    NewcomerHoldsNothing(pc);
    var s' := Spawn(s, pc);
    forall r: nat | r < s'.runs && r !in s'.closed
      ensures exists j :: 0 <= j < |s'.threads| && Carries(s'.threads[j]) == Some(r)
    {
      var j :| 0 <= j < |s.threads| && Carries(s.threads[j]) == Some(r);
      assert s'.threads[j] == s.threads[j];
    }
  }

  /** A newcomer that holds nothing and carries nothing disturbs nothing. */
  lemma SpawnInv(s: State, pc: PC)
    requires Inv(s) && (pc.WantLifecycle? || pc.WantServe?)
    ensures Inv(Spawn(s, pc))
  {
    SpawnKeepsOthers(s, pc);
    SpawnKeepsRuns(s, pc);
    SpawnKeepsPublished(s, pc);
    SpawnKeepsFlags(s, pc);
    hide *;
  }

  lemma SpawnKeepsPublished(s: State, pc: PC)
    requires Locks(s) && Publication(s) && Liveness(s) && OpenStore(s) && (pc.WantLifecycle? || pc.WantServe?)
    ensures Publication(Spawn(s, pc)) && Liveness(Spawn(s, pc)) && OpenStore(Spawn(s, pc))
  {
    SpawnKeepsOthers(s, pc);
    hide Locks, Holder, Drains;
  }

  lemma SpawnKeepsFlags(s: State, pc: PC)
    requires Locks(s) && Stopping(s) && Timers(s) && (pc.WantLifecycle? || pc.WantServe?)
    ensures Stopping(Spawn(s, pc)) && Timers(Spawn(s, pc))
  {
    SpawnKeepsOthers(s, pc);
    hide Locks, Holder, Drains, MayStart, ServesStop;
  }

  lemma EndInv(s: State)
    requires Inv(s)
    ensures Inv(s.(shutdown := true))
  {
    var s' := s.(shutdown := true);
    assert Holder(s') == Holder(s);
  }

  lemma NextInv(s: State, a: Action)
    requires Inv(s) && Possible(s, a)
    ensures Inv(Next(s, a))
  {
    match a
    case Go(i, choice) =>
      StepLocks(s, i, choice);
      StepRuns(s, i, choice);
      StepPublication(s, i, choice);
      StepLiveness(s, i, choice);
      StepOpenStore(s, i, choice);
      StepStopping(s, i, choice);
      StepTimers(s, i, choice);
      StepCarried(s, i, choice);
      hide *;
    case CallReload => SpawnInv(s, WantLifecycle(Reload));
    case CallStop => SpawnInv(s, WantLifecycle(Stop));
    case Request => SpawnInv(s, WantServe);
    case Fire(t) => SpawnInv(s, WantLifecycle(Timer(t)));
    case EndProcess => EndInv(s);
  }

  ghost predicate Legal(s: State, actions: seq<Action>)
    decreases actions
  {
    actions == [] || (Possible(s, actions[0]) && Legal(Next(s, actions[0]), actions[1..]))
  }

  function Run(s: State, actions: seq<Action>): State
    requires Legal(s, actions)
    decreases actions
  {
    if actions == [] then s else Run(Next(s, actions[0]), actions[1..])
  }

  lemma {:induction false} RunInv(s: State, actions: seq<Action>)
    requires Inv(s) && Legal(s, actions)
    ensures Inv(Run(s, actions))
    decreases actions
  {
    if actions != [] {
      hide Inv, Next;
      NextInv(s, actions[0]);
      RunInv(Next(s, actions[0]), actions[1..]);
    }
  }

  // ------------------------------------------------------------ what it means

  /** However reloads, stops, exits, timers and reads interleave, at most one sampler is live. */
  lemma AtMostOneLive(actions: seq<Action>, i: nat, j: nat)
    requires Legal(INITIAL, actions)
    requires var t := Run(INITIAL, actions).threads; i < |t| && j < |t| && t[i].Sampling? && t[j].Sampling?
    ensures i == j
  {
    assert Inv(INITIAL);
    RunInv(INITIAL, actions);
    OneSampler(Run(INITIAL, actions), i, j);
  }

  lemma SameRun(s: State, i: nat, j: nat)
    requires Runs(s) && i < |s.threads| && j < |s.threads|
    requires Carries(s.threads[i]).Some? && Carries(s.threads[i]) == Carries(s.threads[j])
    ensures i == j
  {
    hide Carries;
  }

  lemma OneSampler(s: State, i: nat, j: nat)
    requires Inv(s) && i < |s.threads| && j < |s.threads| && s.threads[i].Sampling? && s.threads[j].Sampling?
    ensures i == j
  {
    hide Locks, Runs, Stopping, Timers, Carried, OpenStore, Holder;
    SameRun(s, i, j);
  }

  lemma PublishingMeansGoing(s: State, i: nat)
    requires Locks(s) && Stopping(s) && i < |s.threads| && s.threads[i].Publishing?
    ensures !s.stopped
  {
    assert HoldsLifecycle(s.threads[i]);
    assert Holder(s) == s.threads[i];
  }

  lemma StoppedStep(s: State, a: Action)
    requires Inv(s) && s.stopReturned && Possible(s, a)
    ensures Next(s, a).stopReturned && Next(s, a).runs == s.runs
  {
    hide Locks, Runs, Publication, Liveness, OpenStore, Timers, Carried, NextPC, Children, CanStep;
    forall i: nat | i < |s.threads| ensures !s.threads[i].Publishing? {
      if s.threads[i].Publishing? { PublishingMeansGoing(s, i); }
    }
  }

  /** Once a stop call has returned no sampler is live, and none is ever started again. */
  lemma {:induction false} NothingAfterStop(s: State, actions: seq<Action>)
    requires Inv(s) && s.stopReturned && Legal(s, actions)
    ensures var t := Run(s, actions);
      t.runs == s.runs && t.published.None? && forall i :: 0 <= i < |t.threads| ==> !t.threads[i].Sampling?
    decreases actions
  {
    if actions != [] {
      hide Inv, Next;
      StoppedStep(s, actions[0]);
      NextInv(s, actions[0]);
      NothingAfterStop(Next(s, actions[0]), actions[1..]);
    } else {
      hide Locks, Runs, Timers, Carried, OpenStore, Holder;
    }
  }

  /** A timer that was cancelled, and so also one that was replaced, never leads to a reload, and none leads to two. */
  lemma TimersFireOnce(actions: seq<Action>)
    requires Legal(INITIAL, actions)
    ensures var s := Run(INITIAL, actions);
      && s.disarmed !! s.triggered
      && forall i :: 0 <= i < |s.threads| && TakesTimer(s, s.threads[i]) ==>
           s.threads[i].job.id !in s.disarmed && s.threads[i].job.id !in s.triggered
  {
    assert Inv(INITIAL);
    RunInv(INITIAL, actions);
    hide Locks, Runs, Carried, OpenStore, Stopping, Liveness, Publication;
  }

  /** A request served from a published run never sees that run's store closed, while the process is not ending. */
  lemma ReadersSeeOpenStores(actions: seq<Action>, i: nat)
    requires Legal(INITIAL, actions)
    requires var s := Run(INITIAL, actions);
      i < |s.threads| && s.threads[i].Serving? && s.threads[i].handler.Some? && !s.shutdown
    ensures var s := Run(INITIAL, actions); s.threads[i].handler.value !in s.closed && s.threads[i].handler.value !in s.cancelled
  {
    assert Inv(INITIAL);
    RunInv(INITIAL, actions);
    hide Locks, Runs, Carried, Stopping, Liveness, Timers;
  }

  // ------------------------------------------------------------ nobody waits in a circle

  /** Goroutine i cannot go on before j has; a pending writer also keeps new readers out. */
  predicate WaitsFor(s: State, i: nat, j: nat)
    requires i < |s.threads| && j < |s.threads|
  {
    var a, b := s.threads[i], s.threads[j];
    if a.WantLifecycle? then HoldsLifecycle(b)
    else if WantsWrite(a) then Writes(b) || Reads(b)
    else if WantsRead(a) then Writes(b) || WantsWrite(b)
    else if a.WaitDone? || a.WaitRetired? then a.run !in s.closed && Carries(b) == Some(a.run)
    else false
  }

  /** Goroutine i can take its step and waits for nobody, not even for a pending writer. */
  ghost predicate Ready(s: State, i: nat) {
    && i < |s.threads| && !s.threads[i].Finished? && CanStep(s, s.threads[i])
    && forall j :: 0 <= j < |s.threads| ==> !WaitsFor(s, i, j)
  }

  function Rank(pc: PC): nat {
    if pc.WantLifecycle? then 4
    else if pc.WaitDone? || pc.WaitRetired? then 3
    else if WantsRead(pc) then 2
    else if WantsWrite(pc) then 1
    else 0
  }

  /**
   Whatever a goroutine waits for stands strictly lower in one fixed order: a stop
   waiting on done holds lifecycle but not mu, and a holder of mu waits for nothing.
   */
  lemma WaitDescends(s: State, i: nat, j: nat)
    requires i < |s.threads| && j < |s.threads| && WaitsFor(s, i, j)
    ensures Rank(s.threads[j]) < Rank(s.threads[i]) && !s.threads[j].Finished?
    ensures Writes(s.threads[j]) || Reads(s.threads[j]) ==> Rank(s.threads[j]) == 0
  {
  }

  predicate Chain(s: State, path: seq<nat>) {
    && path != [] && (forall k :: 0 <= k < |path| ==> path[k] < |s.threads|)
    && forall k :: 0 < k < |path| ==> WaitsFor(s, path[k - 1], path[k])
  }

  lemma BlockedOnSomeone(s: State, i: nat)
    requires Inv(s) && i < |s.threads| && !s.threads[i].Finished? && !Ready(s, i)
    ensures exists j :: 0 <= j < |s.threads| && WaitsFor(s, i, j)
  {
    hide Liveness, OpenStore, Stopping, Timers, Runs;
    var pc := s.threads[i];
    if CanStep(s, pc) {
      hide CanStep, WaitsFor;
    } else if pc.WantLifecycle? {
      assert WaitsFor(s, i, s.lifecycle.value);
    } else if WantsWrite(pc) || WantsRead(pc) {
      if s.writer.Some? {
        assert WaitsFor(s, i, s.writer.value);
      } else {
        var j :| 0 <= j < |s.threads| && Reads(s.threads[j]);
        assert WaitsFor(s, i, j);
      }
    } else {
      assert pc.WaitDone? ==> HoldsLifecycle(pc) && Holder(s) == pc && Draining(s) == Some(pc.run);
      var j :| 0 <= j < |s.threads| && Carries(s.threads[j]) == Some(pc.run);
      assert WaitsFor(s, i, j);
    }
  }

  /** Every wait ends at a goroutine that is ready: there is no deadlock in any reachable state. */
  lemma {:induction false} WaitEnds(s: State, i: nat) returns (path: seq<nat>)
    requires Inv(s) && i < |s.threads| && !s.threads[i].Finished?
    ensures Chain(s, path) && path[0] == i && Ready(s, path[|path| - 1])
    decreases Rank(s.threads[i])
  {
    hide Inv, CanStep;
    if Ready(s, i) {
      path := [i];
    } else {
      BlockedOnSomeone(s, i);
      hide Ready;
      var j: nat :| j < |s.threads| && WaitsFor(s, i, j);
      WaitDescends(s, i, j);
      hide Rank, WaitsFor;
      var rest := WaitEnds(s, j);
      path := [i] + rest;
      forall k | 0 < k < |path| ensures WaitsFor(s, path[k - 1], path[k]) {
        if k > 1 { assert WaitsFor(s, rest[k - 2], rest[k - 1]); }
      }
    }
  }

  lemma NoDeadlock(actions: seq<Action>, i: nat) returns (path: seq<nat>)
    requires Legal(INITIAL, actions) && i < |Run(INITIAL, actions).threads| && !Run(INITIAL, actions).threads[i].Finished?
    ensures var s := Run(INITIAL, actions);
      Chain(s, path) && path[0] == i && Ready(s, path[|path| - 1])
  {
    assert Inv(INITIAL);
    RunInv(INITIAL, actions);
    path := WaitEnds(Run(INITIAL, actions), i);
  }

  // ------------------------------------------------------------ every call comes to its end

  /** What a goroutine and those it starts still have before them, if nobody calls again. */
  function Weight(pc: PC): nat {
    match pc
    case WantLifecycle(job) => (match job case Reload => 25 case Stop => 25 case Retry => 7 case Timer(_) => 28)
    case Entered(job) => (match job case Reload => 24 case Stop => 24 case Retry => 6 case Timer(_) => 27)
    case HandOver => 26
    case WantMuClear(_) => 23
    case Clearing(_) => 22
    case Cancelling(_, _) => 21
    case WaitDone(_, _) => 20
    case Building => 19
    case WantMuPublish => 18
    case Publishing => 17
    case Starting(_) => 16
    case Sampling(_) => 14
    case Exited(_) => 13
    case WantMuRetire(_) => 12
    case Retiring(_) => 11
    case Closing(_, retry) => if retry then 10 else 1
    case WaitRetired(_) => 8
    case Scheduling(_) => 5
    case WantMuRead(_) => 4
    case Reading(_) => 3
    case Deciding(_, _) => 2
    case WantServe => 2
    case Serving(_) => 1
    case Leaving(_) => 1
    case Finished => 0
  }

  function Work(threads: seq<PC>): nat {
    if threads == [] then 0 else Work(threads[..|threads| - 1]) + Weight(threads[|threads| - 1])
  }

  lemma {:induction false} WorkUpdate(threads: seq<PC>, i: nat, pc: PC)
    requires i < |threads|
    ensures Work(threads[i := pc]) + Weight(threads[i]) == Work(threads) + Weight(pc)
  {
    var last := |threads| - 1;
    if i == last {
      assert threads[i := pc][..last] == threads[..last];
    } else {
      assert threads[i := pc][..last] == threads[..last][i := pc];
      WorkUpdate(threads[..last], i, pc);
    }
  }

  lemma PlaceWeighs(s: State, pc: PC, choice: Choice)
    requires CanStep(s, pc)
    ensures Weight(NextPC(s, pc, choice)) + (if Children(pc) == [] then 0 else Weight(Children(pc)[0])) < Weight(pc)
    ensures |Children(pc)| <= 1
  {
  }

  /** Every step of every goroutine is one of finitely many: without new calls no run goes on for ever. */
  lemma StepWorks(s: State, i: nat, choice: Choice)
    requires i < |s.threads| && CanStep(s, s.threads[i])
    ensures Work(Step(s, i, choice).threads) < Work(s.threads)
  {
    var pc := s.threads[i];
    PlaceWeighs(s, pc, choice);
    hide Weight, NextPC, Children, CanStep;
    var moved := s.threads[i := NextPC(s, pc, choice)];
    WorkUpdate(s.threads, i, NextPC(s, pc, choice));
    if Children(pc) == [] {
      assert moved + [] == moved;
    } else {
      assert (moved + Children(pc))[..|moved|] == moved;
    }
  }

  /** Nothing but goroutines taking their steps, always with the same choice. */
  ghost predicate Steps(actions: seq<Action>, choice: Choice) {
    forall a :: a in actions ==> a.Go? && a.choice == choice
  }

  ghost predicate Settled(s: State) {
    forall i :: 0 <= i < |s.threads| ==> s.threads[i].Finished?
  }

  /** From every reachable state, letting whoever is ready go on brings every call, and every sampler, to its end. */
  lemma {:induction false} Settle(s: State, choice: Choice) returns (actions: seq<Action>)
    requires Inv(s)
    ensures Steps(actions, choice) && Legal(s, actions) && Settled(Run(s, actions))
    decreases Work(s.threads)
  {
    hide Inv, Work, CanStep, Step;
    if Settled(s) {
      actions := [];
    } else {
      var i: nat :| i < |s.threads| && !s.threads[i].Finished?;
      var path := WaitEnds(s, i);
      var ready := path[|path| - 1];
      var a := Go(ready, choice);
      StepWorks(s, ready, choice);
      NextInv(s, a);
      var rest := Settle(Next(s, a), choice);
      actions := [a] + rest;
    }
  }

  // ------------------------------------------------------------ what a reload comes to

  /** Past the check of stopped, and not yet past the build. */
  predicate Stops(pc: PC) {
    match pc
    case WantMuClear(job) => job.Reload?
    case Clearing(job) => job.Reload?
    case Cancelling(job, _) => job.Reload?
    case WaitDone(job, _) => job.Reload?
    case Building => true
    case _ => false
  }

  predicate Schedules(pc: PC) {
    match pc
    case Scheduling(job) => job.Reload?
    case WantMuRead(job) => job.Reload?
    case Reading(job) => job.Reload?
    case Deciding(job, _) => job.Reload?
    case _ => false
  }

  /** Goroutine i is a reload on its way to what its choice at the build leads to. */
  ghost predicate OnItsWay(s: State, i: nat, choice: Choice, since: nat) {
    && i < |s.threads| && s.runs >= since && !s.stopped
    && match choice
       case Start => Stops(s.threads[i]) || s.threads[i].WantMuPublish? || s.threads[i].Publishing?
                     || (s.threads[i].Starting? && s.threads[i].run >= since)
       case Fail => s.retry.None? && (Stops(s.threads[i])
                    || (Schedules(s.threads[i]) && s.published.None? && (s.threads[i].Deciding? ==> !s.threads[i].active)))
       case Quiet => s.retry.None? && Stops(s.threads[i])
  }

  /** A new run is published and its sampler lives; a retry timer is set; nothing runs and nothing is set. */
  ghost predicate Outcome(s: State, choice: Choice, since: nat) {
    match choice
    case Start => exists r, j :: since <= r && s.published == Some(r) && 0 <= j < |s.threads| && s.threads[j] == Sampling(r)
    case Fail => s.retry.Some? && s.published.None?
    case Quiet => s.retry.None? && s.published.None?
  }

  /** A step of the reload itself brings it further or to its outcome. */
  lemma OwnStep(s: State, i: nat, choice: Choice, since: nat)
    requires Inv(s) && OnItsWay(s, i, choice, since) && CanStep(s, s.threads[i]) && !s.shutdown
    ensures OnItsWay(Step(s, i, choice), i, choice, since) || Outcome(Step(s, i, choice), choice, since)
  {
    hide Locks, Runs, OpenStore, Stopping, Timers, Carried;
    var s', pc := Step(s, i, choice), s.threads[i];
    HolderIs(s, i);
    if pc.Starting? {
      assert s'.threads[|s.threads|] == Sampling(pc.run);
      assert s'.published == Some(pc.run);
    }
  }

  lemma HolderIs(s: State, i: nat)
    requires Locks(s) && i < |s.threads| && HoldsLifecycle(s.threads[i])
    ensures Holder(s) == s.threads[i] && s.lifecycle == Some(i)
  {
  }

  /** Nobody else can take it off its way: what it needs only a holder of lifecycle changes. */
  lemma OthersStep(s: State, j: nat, other: Choice, i: nat, choice: Choice, since: nat)
    requires Inv(s) && OnItsWay(s, i, choice, since) && j != i && j < |s.threads| && CanStep(s, s.threads[j])
    ensures OnItsWay(Step(s, j, other), i, choice, since)
  {
    hide Runs, OpenStore, Stopping, Timers, Carried, Liveness, Publication;
    var pc := s.threads[j];
    assert HoldsLifecycle(s.threads[i]) && s.lifecycle == Some(i);
    assert !HoldsLifecycle(pc);
    OutsiderStep(s, j, other);
    hide NextPC, Children, HoldsLifecycle, Locks;
  }

  lemma OutsiderStep(s: State, j: nat, choice: Choice)
    requires j < |s.threads| && CanStep(s, s.threads[j]) && !HoldsLifecycle(s.threads[j])
    ensures var s' := Step(s, j, choice);
      && s'.stopped == s.stopped && s'.retry == s.retry && s'.runs == s.runs && s'.wanted == s.wanted
      && (s'.published == s.published || s'.published.None?)
  {
    hide NextPC, Children;
  }

  lemma OnItsWayStep(s: State, a: Action, i: nat, choice: Choice, since: nat)
    requires Inv(s) && OnItsWay(s, i, choice, since) && Possible(s, a) && !s.shutdown
    requires a.Go? && a.i == i ==> a.choice == choice
    ensures OnItsWay(Next(s, a), i, choice, since) || Outcome(Next(s, a), choice, since)
  {
    hide Inv, OnItsWay, Outcome, Step, CanStep;
    match a
    case Go(j, other) => if j == i { OwnStep(s, i, choice, since); } else { OthersStep(s, j, other, i, choice, since); }
    case EndProcess => hide Stops, Schedules; Unmoved(s, s.(shutdown := true), i, choice, since);
    case _ => hide Stops, Schedules; Unmoved(s, Next(s, a), i, choice, since);
  }

  lemma Unmoved(s: State, s': State, i: nat, choice: Choice, since: nat)
    requires OnItsWay(s, i, choice, since) && s'.stopped == s.stopped && s'.runs == s.runs
    requires s'.retry == s.retry && s'.published == s.published && s.threads <= s'.threads
    ensures OnItsWay(s', i, choice, since)
  {
  }

  lemma {:induction false} StillRunning(s: State, actions: seq<Action>)
    requires Legal(s, actions) && s.shutdown
    ensures Run(s, actions).shutdown
    decreases actions
  {
    if actions != [] {
      hide CanStep;
      StillRunning(Next(s, actions[0]), actions[1..]);
    }
  }

  /**
   A reload that has passed its check of stopped, in any interleaving with anything:
   once it is finished there was a moment at which its choice had its outcome. One that
   finds monitoring on and everything in order publishes a new run and starts its
   sampler; one that fails sets the retry timer; one that finds monitoring off leaves
   nothing running and nothing set.
   */
  lemma {:induction false} ReloadHasOutcome(s: State, actions: seq<Action>, i: nat, choice: Choice, since: nat) returns (k: nat)
    requires Inv(s) && OnItsWay(s, i, choice, since) && Legal(s, actions)
    requires forall a :: a in actions && a.Go? && a.i == i ==> a.choice == choice
    requires var t := Run(s, actions); !t.shutdown && i < |t.threads| && t.threads[i].Finished?
    ensures k <= |actions| && Legal(s, actions[..k]) && Outcome(Run(s, actions[..k]), choice, since)
    decreases actions
  {
    hide Inv, OnItsWay, Outcome, Next, Possible;
    if s.shutdown { StillRunning(s, actions); }
    OnItsWayIsThere(s, i, choice, since);
    if actions != [] {
      var a, rest := actions[0], actions[1..];
      assert a in actions && forall b :: b in rest ==> b in actions;
      OnItsWayStep(s, a, i, choice, since);
      NextInv(s, a);
      if Outcome(Next(s, a), choice, since) {
        k := 1;
        assert actions[..1] == [a];
      } else {
        k := ReloadHasOutcome(Next(s, a), rest, i, choice, since);
        assert actions[..k + 1][1..] == rest[..k] && actions[..k + 1][0] == a;
        k := k + 1;
      }
    } else {
      assert false;
    }
  }

  lemma EntersIs(s: State, i: nat, choice: Choice, job: Job)
    requires i < |s.threads| && s.threads[i] == WantLifecycle(job) && s.lifecycle.None?
    ensures Possible(s, Go(i, choice))
    ensures Next(s, Go(i, choice)) == s.(threads := s.threads[i := Entered(job)], lifecycle := Some(i))
  {
    assert s.threads[i := Entered(job)] + [] == s.threads[i := Entered(job)];
  }

  lemma GoesAhead(s: State, i: nat, choice: Choice)
    requires i < |s.threads| && s.threads[i] == Entered(Reload) && !s.stopped
    ensures Possible(s, Go(i, choice))
    ensures var s' := Next(s, Go(i, choice));
      && s'.threads == s.threads[i := WantMuClear(Reload)] && s'.retry.None? && !s'.stopped
      && s'.runs == s.runs && s'.shutdown == s.shutdown
  {
    assert s.threads[i := WantMuClear(Reload)] + [] == s.threads[i := WantMuClear(Reload)];
  }

  lemma TwoSteps(s: State, a: Action)
    requires Possible(s, a) && Possible(Next(s, a), a)
    ensures Legal(s, [a, a]) && Run(s, [a, a]) == Next(Next(s, a), a)
  {
    hide Possible, Next;
    assert [a, a][1..] == [a] && [a][1..] == [];
    assert Legal(Next(s, a), [a]) && Run(Next(s, a), [a]) == Next(Next(s, a), a);
  }

  /** A reload that gets in while nobody has stopped the supervisor is on its way. */
  lemma ReloadGetsIn(s: State, i: nat, choice: Choice)
    requires Inv(s) && s.lifecycle.None? && !s.stopped && i < |s.threads| && s.threads[i] == WantLifecycle(Reload)
    ensures var enter := [Go(i, choice), Go(i, choice)];
      && Legal(s, enter) && Inv(Run(s, enter)) && OnItsWay(Run(s, enter), i, choice, s.runs) && Run(s, enter).shutdown == s.shutdown
  {
    hide Inv, Next, Possible, Legal, Run;
    var a := Go(i, choice);
    EntersIs(s, i, choice, Reload);
    GoesAhead(Next(s, a), i, choice);
    NextInv(s, a);
    NextInv(Next(s, a), a);
    TwoSteps(s, a);
  }

  lemma {:induction false} LegalJoin(s: State, first: seq<Action>, rest: seq<Action>)
    requires Legal(s, first) && Legal(Run(s, first), rest)
    ensures Legal(s, first + rest) && Run(s, first + rest) == Run(Run(s, first), rest)
    decreases first
  {
    hide Possible, Next;
    if first == [] {
      assert [] + rest == rest;
    } else {
      assert (first + rest)[1..] == first[1..] + rest;
      LegalJoin(Next(s, first[0]), first[1..], rest);
    }
  }

  lemma {:induction false} StepsOnly(s: State, actions: seq<Action>, choice: Choice)
    requires Legal(s, actions) && Steps(actions, choice)
    ensures Run(s, actions).shutdown == s.shutdown && |s.threads| <= |Run(s, actions).threads|
    decreases actions
  {
    if actions != [] {
      hide CanStep, NextPC, Children;
      assert actions[0] in actions && forall a :: a in actions[1..] ==> a in actions;
      StepsOnly(Next(s, actions[0]), actions[1..], choice);
    }
  }

  /**
   From any reachable state in which lifecycle is free and nobody has stopped the
   supervisor, a waiting reload can get in, every goroutine can come to its end after it,
   and on the way the reload has its outcome.
   */
  lemma ReloadCompletes(s: State, i: nat, choice: Choice) returns (actions: seq<Action>, k: nat)
    requires Inv(s) && s.lifecycle.None? && !s.stopped && !s.shutdown
    requires i < |s.threads| && s.threads[i] == WantLifecycle(Reload)
    ensures Steps(actions, choice) && Legal(s, actions) && Settled(Run(s, actions))
    ensures k <= |actions| && Legal(s, actions[..k]) && Outcome(Run(s, actions[..k]), choice, s.runs)
  {
    hide Inv, OnItsWay, Outcome, Possible, Next;
    ReloadGetsIn(s, i, choice);
    var enter := [Go(i, choice), Go(i, choice)];
    var t := Run(s, enter);
    OnItsWayIsThere(t, i, choice, s.runs);
    var rest := Settle(t, choice);
    StepsOnly(t, rest, choice);
    var at := ReloadHasOutcome(t, rest, i, choice, s.runs);
    LegalJoin(s, enter, rest);
    LegalJoin(s, enter, rest[..at]);
    actions, k := enter + rest, 2 + at;
    assert actions[..k] == enter + rest[..at];
  }

  lemma OnItsWayIsThere(s: State, i: nat, choice: Choice, since: nat)
    requires OnItsWay(s, i, choice, since)
    ensures i < |s.threads| && !s.threads[i].Finished?
  {
  }

  /** The callback of the timer that is set turns into a reload that waits to get in; the timer is used up. */
  lemma TimerReloads(s: State, i: nat, choice: Choice)
    requires Inv(s) && s.lifecycle.None? && !s.stopped && s.retry.Some?
    requires i < |s.threads| && s.threads[i] == WantLifecycle(Timer(s.retry.value))
    ensures var fire := [Go(i, choice), Go(i, choice), Go(i, choice)];
      && Legal(s, fire) && Inv(Run(s, fire))
      && var t := Run(s, fire);
      && |t.threads| == |s.threads| && t.threads[i] == WantLifecycle(Reload)
      && t.lifecycle.None? && !t.stopped && t.shutdown == s.shutdown
      && t.retry.None? && s.retry.value in t.triggered
  {
    hide Inv, Next, Possible, Legal, Run;
    var a := Go(i, choice);
    EntersIs(s, i, choice, Timer(s.retry.value));
    var s1 := Next(s, a);
    TakesItsTimer(s1, i, choice);
    HandsOver(Next(s1, a), i, choice);
    NextInv(s, a);
    NextInv(s1, a);
    NextInv(Next(s1, a), a);
    TwoSteps(s, a);
    OneStep(Next(s1, a), a);
    LegalJoin(s, [a, a], [a]);
    assert [a, a] + [a] == [a, a, a];
  }

  lemma OneStep(s: State, a: Action)
    requires Possible(s, a)
    ensures Legal(s, [a]) && Run(s, [a]) == Next(s, a)
  {
    hide Possible, Next;
    assert [a][1..] == [];
  }

  lemma TakesItsTimer(s: State, i: nat, choice: Choice)
    requires i < |s.threads| && s.retry.Some? && s.threads[i] == Entered(Timer(s.retry.value)) && !s.stopped
    ensures Possible(s, Go(i, choice))
    ensures Next(s, Go(i, choice)) ==
      s.(threads := s.threads[i := HandOver], retry := None, triggered := s.triggered + {s.retry.value})
  {
    assert s.threads[i := HandOver] + [] == s.threads[i := HandOver];
  }

  lemma HandsOver(s: State, i: nat, choice: Choice)
    requires i < |s.threads| && s.threads[i] == HandOver
    ensures Possible(s, Go(i, choice))
    ensures Next(s, Go(i, choice)) == s.(threads := s.threads[i := WantLifecycle(Reload)], lifecycle := None)
  {
    assert s.threads[i := WantLifecycle(Reload)] + [] == s.threads[i := WantLifecycle(Reload)];
  }

  // ------------------------------------------------------------ a wanted monitor is not forgotten

  /** A goroutine that will publish a run or set the timer, or find that somebody else has. */
  predicate Brings(pc: PC) {
    match pc
    case WantLifecycle(job) => job.Reload? || job.Retry?
    case Entered(job) => job.Reload? || job.Retry?
    case HandOver => true
    case WantMuPublish => true
    case Publishing => true
    case Closing(_, retry) => retry
    case WaitRetired(_) => true
    case Scheduling(_) => true
    case WantMuRead(_) => true
    case Reading(_) => true
    case Deciding(_, active) => !active
    case _ => Stops(pc)
  }

  /** While a monitor is wanted one is published, the retry timer is set, or somebody brings either about. */
  ghost predicate Remembered(s: State) {
    && (s.wanted && !s.stopped && !s.shutdown ==>
          s.published.Some? || s.retry.Some? || exists i :: 0 <= i < |s.threads| && Brings(s.threads[i]))
    && (s.published.Some? || Holder(s).WantMuPublish? || Holder(s).Publishing? ==> s.wanted)
    && (forall i :: 0 <= i < |s.threads| ==> Clears(s.threads[i]))
  }

  /** Only a reload or a stop ever clears what is published. */
  predicate Clears(pc: PC) {
    pc.WantMuClear? || pc.Clearing? ==> pc.job.Reload? || pc.job.Stop?
  }

  /** A goroutine that has brought something leaves it behind. */
  lemma PlaceBrings(s: State, pc: PC, choice: Choice)
    requires CanStep(s, pc) && !s.stopped && !s.shutdown && Brings(pc)
    ensures var to := NextPC(s, pc, choice);
      || Brings(to) || (pc.Building? && choice == Quiet) || (Children(pc) != [] && Brings(Children(pc)[0]))
      || HasSet(s, pc)
  {
  }

  /** What is there once the step is taken: a set timer, or a published run. */
  predicate HasSet(s: State, pc: PC) {
    || (pc.Deciding? && !pc.active) || pc.Publishing?
    || (pc.Reading? && s.published.Some?) || (pc.Scheduling? && s.retry.Some?)
  }

  /** Whoever takes the evidence away brings other evidence. */
  lemma PlaceTakes(s: State, pc: PC, choice: Choice)
    requires CanStep(s, pc) && !s.stopped && Clears(pc)
    ensures var to := NextPC(s, pc, choice);
      && (pc.Clearing? && pc.job.Reload? ==> Brings(to))
      && (pc.Retiring? && s.published == Some(pc.run) ==> Brings(to))
      && (TakesTimer(s, pc) ==> Brings(to))
      && (Disarms(s, pc) ==> Brings(to) || pc == Entered(Stop))
  {
  }

  lemma WantedStays(s: State, i: nat, choice: Choice)
    requires i < |s.threads| && CanStep(s, s.threads[i]) && Locks(s) && Publication(s) && Remembered(s)
    ensures var s' := Step(s, i, choice);
      s'.published.Some? || Holder(s').WantMuPublish? || Holder(s').Publishing? ==> s'.wanted
  {
    HolderStep(s, i, choice);
    PlaceDrains(s, s.threads[i], choice);
    PlaceWanted(s, s.threads[i], choice);
    hide NextPC, CanStep, Children, Locks, HoldsLifecycle, Holder, Brings, Drains;
  }

  lemma PlaceWanted(s: State, pc: PC, choice: Choice)
    ensures var to := NextPC(s, pc, choice);
      && (to.WantMuPublish? ==> pc.Building? && choice == Start)
      && (to.Publishing? ==> pc.WantMuPublish?)
      && (pc.Building? || pc.Publishing? || pc.WantMuPublish? ==> HoldsLifecycle(pc))
  {
  }

  lemma PlaceClears(s: State, pc: PC, choice: Choice)
    requires Clears(pc)
    ensures Clears(NextPC(s, pc, choice)) && forall c :: c in Children(pc) ==> Clears(c)
  {
  }

  lemma ClearsStay(s: State, i: nat, choice: Choice)
    requires i < |s.threads| && CanStep(s, s.threads[i]) && Remembered(s)
    ensures forall j :: 0 <= j < |Step(s, i, choice).threads| ==> Clears(Step(s, i, choice).threads[j])
  {
    PlaceClears(s, s.threads[i], choice);
    hide NextPC, CanStep, Children, Clears, Holder, Brings;
  }

  lemma StepRemembers(s: State, i: nat, choice: Choice)
    requires i < |s.threads| && CanStep(s, s.threads[i]) && Inv(s) && Remembered(s)
    ensures var s' := Step(s, i, choice);
      s'.wanted && !s'.stopped && !s'.shutdown ==>
        s'.published.Some? || s'.retry.Some? || exists j :: 0 <= j < |s'.threads| && Brings(s'.threads[j])
  {
    var s', pc := Step(s, i, choice), s.threads[i];
    if s'.wanted && !s'.stopped && !s'.shutdown && s'.published.None? && s'.retry.None? {
      PlaceTakes(s, pc, choice);
      if pc.Clearing? && pc.job.Stop? { StopHasStopped(s, i); }
      PlaceStarts(s, pc, choice);
      hide NextPC, CanStep, Children, Clears, Holder, Brings, Inv;
      if Brings(NextPC(s, pc, choice)) {
        assert Brings(s'.threads[i]);
      } else {
        assert s.wanted && s.published.None? && s.retry.None?;
        var k :| 0 <= k < |s.threads| && Brings(s.threads[k]);
        if k != i {
          assert s'.threads[k] == s.threads[k];
        } else {
          PlaceBrings(s, pc, choice);
          assert s'.threads[|s.threads|] == Children(pc)[0];
        }
      }
    }
  }

  lemma StopHasStopped(s: State, i: nat)
    requires Locks(s) && Stopping(s) && i < |s.threads| && s.threads[i].Clearing? && s.threads[i].job.Stop?
    ensures s.stopped
  {
  }

  lemma PlaceStarts(s: State, pc: PC, choice: Choice)
    ensures pc.Building? && choice != Quiet ==> Brings(NextPC(s, pc, choice))
  {
  }

  lemma NextRemembers(s: State, a: Action)
    requires Inv(s) && Remembered(s) && Possible(s, a)
    ensures Remembered(Next(s, a))
  {
    match a
    case Go(i, choice) =>
      WantedStays(s, i, choice);
      ClearsStay(s, i, choice);
      StepRemembers(s, i, choice);
      hide Inv, CanStep, Step, Holder, Brings, Clears;
    case CallReload => SpawnRemembers(s, WantLifecycle(Reload));
    case CallStop => SpawnRemembers(s, WantLifecycle(Stop));
    case Request => SpawnRemembers(s, WantServe);
    case Fire(t) => SpawnRemembers(s, WantLifecycle(Timer(t)));
    case EndProcess => assert Holder(s.(shutdown := true)) == Holder(s);
  }

  lemma SpawnRemembers(s: State, pc: PC)
    requires Locks(s) && Remembered(s) && (pc.WantLifecycle? || pc.WantServe?)
    ensures Remembered(Spawn(s, pc))
  {
    SpawnKeepsOthers(s, pc);
    hide Locks, Holder, Brings;
    if i :| 0 <= i < |s.threads| && Brings(s.threads[i]) {
      assert Spawn(s, pc).threads[i] == s.threads[i];
    }
  }

  lemma {:induction false} RunRemembers(s: State, actions: seq<Action>)
    requires Inv(s) && Remembered(s) && Legal(s, actions)
    ensures Remembered(Run(s, actions)) && Inv(Run(s, actions))
    decreases actions
  {
    if actions != [] {
      hide Inv, Next, Remembered;
      NextInv(s, actions[0]);
      NextRemembers(s, actions[0]);
      RunRemembers(Next(s, actions[0]), actions[1..]);
    }
  }

  /** Everybody has come to an end, but for samplers that run on. */
  ghost predicate AtRest(s: State) {
    forall i :: 0 <= i < |s.threads| ==> s.threads[i].Finished? || s.threads[i].Sampling?
  }

  /**
   However reloads, unexpected exits, timers, failures and reads have interleaved: once
   nobody is under way any more, a monitor that is wanted and was not stopped is either
   published with its sampler live, or the timer that will reload it is set.
   */
  lemma WantedIsServed(actions: seq<Action>)
    requires Legal(INITIAL, actions)
    requires var s := Run(INITIAL, actions); AtRest(s) && s.wanted && !s.stopped && !s.shutdown
    ensures var s := Run(INITIAL, actions);
      || (s.published.Some? && exists i :: 0 <= i < |s.threads| && s.threads[i] == Sampling(s.published.value))
      || s.retry.Some?
  {
    assert Inv(INITIAL) && Remembered(INITIAL);
    RunRemembers(INITIAL, actions);
    AtRestServes(Run(INITIAL, actions));
  }

  lemma AtRestServes(s: State)
    requires Inv(s) && Remembered(s) && AtRest(s) && s.wanted && !s.stopped && !s.shutdown
    ensures (s.published.Some? && exists i :: 0 <= i < |s.threads| && s.threads[i] == Sampling(s.published.value)) || s.retry.Some?
  {
    hide Locks, Runs, Stopping, Timers, Liveness, Holder;
    forall i: nat | i < |s.threads| ensures !Brings(s.threads[i]) {
      assert s.threads[i].Finished? || s.threads[i].Sampling?;
    }
    if s.published.Some? {
      var r := s.published.value;
      var i :| 0 <= i < |s.threads| && Carries(s.threads[i]) == Some(r);
      assert s.threads[i] == Sampling(r);
    }
  }

  /**
   So once no goroutine is left, as after an unexpected exit and all that follows it, the
   retry timer is set, unless the process is ending or the monitor was stopped or
   switched off.
   */
  lemma ExitSetsTimer(s: State, actions: seq<Action>)
    requires Inv(s) && Remembered(s) && Legal(s, actions)
    requires var t := Run(s, actions); Settled(t) && t.wanted && !t.stopped && !t.shutdown
    ensures Run(s, actions).retry.Some?
  {
    RunRemembers(s, actions);
    var t := Run(s, actions);
    assert AtRest(t);
    AtRestServes(t);
  }

  // ------------------------------------------------------------ when the timer is set

  /** About to look whether a timer is needed, or to set one. */
  predicate Arming(pc: PC) {
    pc.WantMuRead? || pc.Reading? || pc.Deciding?
  }

  /** A timer is only ever set, or being set, while the supervisor is not stopped and nothing is published or about to be. */
  ghost predicate OneTimer(s: State) {
    && (s.stopped || s.published.Some? || MayStart(Holder(s)) || Arming(Holder(s)) ==> s.retry.None?)
    && (Arming(Holder(s)) ==> !s.stopped)
    && (Holder(s).Deciding? && !Holder(s).active ==> s.published.None?)
  }

  lemma PlaceArms(s: State, pc: PC, choice: Choice)
    ensures var to := NextPC(s, pc, choice);
      && (Arming(to) ==> Arming(pc) || (pc.Scheduling? && !s.stopped && s.retry.None?))
      && (to.Deciding? <==> pc.Reading?) && (to.Deciding? ==> to.active == s.published.Some?)
      && (MayStart(to) ==> MayStart(pc) || (pc.Entered? && pc.job.Reload? && !s.stopped))
      && (pc.Publishing? ==> MayStart(pc)) && (pc.Deciding? ==> !Arming(to) && !MayStart(to) && HoldsLifecycle(pc))
      && (Arming(pc) || MayStart(pc) || pc.Entered? ==> HoldsLifecycle(pc))
  {
  }

  lemma StepOneTimer(s: State, i: nat, choice: Choice)
    requires i < |s.threads| && CanStep(s, s.threads[i]) && Inv(s) && OneTimer(s)
    ensures OneTimer(Step(s, i, choice))
  {
    HolderStep(s, i, choice);
    PlaceArms(s, s.threads[i], choice);
    hide NextPC, CanStep, Children, HoldsLifecycle, Holder, Inv, MayStart;
  }

  lemma NextOneTimer(s: State, a: Action)
    requires Inv(s) && OneTimer(s) && Possible(s, a)
    ensures OneTimer(Next(s, a))
  {
    match a
    case Go(i, choice) => StepOneTimer(s, i, choice);
    case CallReload => SpawnKeepsOthers(s, WantLifecycle(Reload));
    case CallStop => SpawnKeepsOthers(s, WantLifecycle(Stop));
    case Request => SpawnKeepsOthers(s, WantServe);
    case Fire(t) => SpawnKeepsOthers(s, WantLifecycle(Timer(t)));
    case EndProcess => assert Holder(s.(shutdown := true)) == Holder(s);
  }

  lemma {:induction false} RunOneTimer(s: State, actions: seq<Action>)
    requires Inv(s) && OneTimer(s) && Legal(s, actions)
    ensures OneTimer(Run(s, actions))
    decreases actions
  {
    if actions != [] {
      hide Inv, Next, OneTimer;
      NextInv(s, actions[0]);
      NextOneTimer(s, actions[0]);
      RunOneTimer(Next(s, actions[0]), actions[1..]);
    }
  }

  /** In every reachable state no timer is set once the supervisor is stopped, and none while a run is published. */
  lemma TimerOnlyWhenNeeded(actions: seq<Action>)
    requires Legal(INITIAL, actions)
    ensures var s := Run(INITIAL, actions); s.stopped || s.published.Some? ==> s.retry.None?
  {
    assert Inv(INITIAL) && OneTimer(INITIAL);
    RunOneTimer(INITIAL, actions);
  }

  /** A timer that is no longer set is never set again, so its callback finds another one, or none. */
  lemma {:induction false} StaleForEver(s: State, t: nat, actions: seq<Action>)
    requires t < s.timers && s.retry != Some(t) && Legal(s, actions)
    ensures t < Run(s, actions).timers && Run(s, actions).retry != Some(t)
    decreases actions
  {
    if actions != [] {
      hide CanStep, NextPC, Children;
      StaleForEver(Next(s, actions[0]), t, actions[1..]);
    }
  }

  /** The callback of a timer that is not the one set, or comes after a stop, leaves without a reload and without touching the timer that is. */
  lemma StaleCallbackLeaves(s: State, i: nat, t: nat, choice: Choice)
    requires i < |s.threads| && s.threads[i] == Entered(Timer(t)) && (s.retry != Some(t) || s.stopped)
    ensures CanStep(s, s.threads[i]) && Step(s, i, choice).threads[i] == Leaving(Timer(t))
    ensures s.retry != Some(t) ==> Step(s, i, choice).retry == s.retry
  {
  }

  // ------------------------------------------------------------ stops, exits and requests

  /** A run whose sampler exits without having been cancelled asks for a retry; a cancelled one does not. */
  ghost predicate RetriesAreUnasked(s: State) {
    forall i :: 0 <= i < |s.threads| && AsksRetry(s.threads[i]).Some? ==>
      var r := AsksRetry(s.threads[i]).value;
      r < s.runs && r !in s.cancelled && s.published != Some(r) && Draining(s) != Some(r)
  }

  function AsksRetry(pc: PC): Option<nat> {
    match pc
    case Closing(r, retry) => if retry then Some(r) else None
    case WaitRetired(r) => Some(r)
    case _ => None
  }

  lemma PlaceAsks(s: State, pc: PC, choice: Choice)
    ensures var to := NextPC(s, pc, choice);
      AsksRetry(to).Some? ==> pc.Retiring? && AsksRetry(to) == Some(pc.run) && s.published == Some(pc.run)
    ensures forall c :: c in Children(pc) && AsksRetry(c).Some? ==> AsksRetry(c) == AsksRetry(pc)
    ensures pc.Cancelling? ==> HoldsLifecycle(pc) && Drains(pc) == Some(pc.run)
    ensures pc.Retiring? ==> !HoldsLifecycle(pc) && !HoldsLifecycle(NextPC(s, pc, choice)) && !pc.Cancelling?
  {
  }

  lemma StepUnasked(s: State, i: nat, choice: Choice)
    requires i < |s.threads| && CanStep(s, s.threads[i]) && Inv(s) && RetriesAreUnasked(s)
    ensures RetriesAreUnasked(Step(s, i, choice))
  {
    HolderStep(s, i, choice);
    PlaceDrains(s, s.threads[i], choice);
    PlaceAsks(s, s.threads[i], choice);
    var s' := Step(s, i, choice);
    assert forall j :: 0 <= j < |s.threads| && j != i ==> s'.threads[j] == s.threads[j];
    assert forall j :: |s.threads| <= j < |s'.threads| ==> s'.threads[j] in Children(s.threads[i]);
    hide NextPC, CanStep, Children, HoldsLifecycle, Holder, Locks, Runs, Liveness, OpenStore, Stopping, Timers, Carried, AsksRetry, Drains;
  }

  lemma SpawnUnasked(s: State, pc: PC)
    requires Locks(s) && RetriesAreUnasked(s) && (pc.WantLifecycle? || pc.WantServe?)
    ensures RetriesAreUnasked(Spawn(s, pc))
  {
    SpawnKeepsOthers(s, pc);
    hide Locks, Holder;
  }

  lemma NextUnasked(s: State, a: Action)
    requires Inv(s) && RetriesAreUnasked(s) && Possible(s, a)
    ensures RetriesAreUnasked(Next(s, a))
  {
    match a
    case Go(i, choice) => StepUnasked(s, i, choice);
    case CallReload => SpawnUnasked(s, WantLifecycle(Reload));
    case CallStop => SpawnUnasked(s, WantLifecycle(Stop));
    case Request => SpawnUnasked(s, WantServe);
    case Fire(t) => SpawnUnasked(s, WantLifecycle(Timer(t)));
    case EndProcess => assert Holder(s.(shutdown := true)) == Holder(s);
  }

  /** From any state in which that is so, only runs nobody has cancelled ever ask for a retry. */
  lemma {:induction false} CancelledRunsStayDown(s: State, actions: seq<Action>)
    requires Inv(s) && RetriesAreUnasked(s) && Legal(s, actions)
    ensures RetriesAreUnasked(Run(s, actions))
    decreases actions
  {
    if actions != [] {
      hide Inv, Next, RetriesAreUnasked;
      NextInv(s, actions[0]);
      NextUnasked(s, actions[0]);
      CancelledRunsStayDown(Next(s, actions[0]), actions[1..]);
    }
  }

  /** A stop call that has come to its end has returned with the supervisor stopped, whatever happened meanwhile. */
  lemma {:induction false} StopReturns(s: State, actions: seq<Action>, i: nat)
    requires Legal(s, actions) && i < |s.threads| && i < |Run(s, actions).threads|
    requires StopOnItsWay(s.threads[i]) || s.stopReturned
    requires Run(s, actions).threads[i].Finished?
    ensures Run(s, actions).stopReturned
    decreases actions
  {
    if actions != [] {
      StopStep(s, actions[0], i);
      hide CanStep, NextPC, Children, Possible, Next, StopOnItsWay;
      StopReturns(Next(s, actions[0]), actions[1..], i);
    }
  }

  predicate StopOnItsWay(pc: PC) {
    pc == WantLifecycle(Stop) || pc == Entered(Stop) || pc == WantMuClear(Stop) || pc == Clearing(Stop)
    || (pc.Cancelling? && pc.job == Stop) || (pc.WaitDone? && pc.job == Stop) || pc == Leaving(Stop)
  }

  lemma StopStep(s: State, a: Action, i: nat)
    requires Possible(s, a) && i < |s.threads| && (StopOnItsWay(s.threads[i]) || s.stopReturned)
    ensures i < |Next(s, a).threads| && (StopOnItsWay(Next(s, a).threads[i]) || Next(s, a).stopReturned)
  {
    hide Children;
  }

  /** From any reachable state a stop can be called and everything can come to its end; the call has then returned. */
  lemma StopCompletes(s: State, choice: Choice) returns (actions: seq<Action>)
    requires Inv(s)
    ensures actions != [] && actions[0] == CallStop && Legal(s, actions)
    ensures Settled(Run(s, actions)) && Run(s, actions).stopReturned
  {
    hide Inv, StopOnItsWay;
    NextInv(s, CallStop);
    var called := Next(s, CallStop);
    var rest := Settle(called, choice);
    actions := [CallStop] + rest;
    assert actions[1..] == rest;
    assert called.threads[|s.threads|] == WantLifecycle(Stop);
    StepsOnly(called, rest, choice);
    assert Run(called, rest).threads[|s.threads|].Finished?;
    JustCalled();
    StopReturns(called, rest, |s.threads|);
  }

  lemma JustCalled()
    ensures StopOnItsWay(WantLifecycle(Stop))
  {
  }

  /** A cold start: the first reload of a process comes to its outcome. */
  lemma ColdStart(choice: Choice) returns (actions: seq<Action>, k: nat)
    ensures actions != [] && actions[0] == CallReload && Legal(INITIAL, actions) && k <= |actions|
    ensures Legal(INITIAL, actions[..k]) && Outcome(Run(INITIAL, actions[..k]), choice, 0)
  {
    assert Inv(INITIAL);
    NextInv(INITIAL, CallReload);
    var called := Next(INITIAL, CallReload);
    hide Inv, Outcome;
    var rest, at := ReloadCompletes(called, 0, choice);
    actions, k := [CallReload] + rest, at + 1;
    assert actions[1..] == rest && actions[..k] == [CallReload] + rest[..at] && actions[..k][1..] == rest[..at];
  }

  /** A request that gets in is served by the run published then, whose store is open; without one it is told so. */
  lemma RequestIsServed(s: State, i: nat, choice: Choice)
    requires Inv(s) && i < |s.threads| && s.threads[i] == WantServe && CanStep(s, s.threads[i])
    ensures Step(s, i, choice).threads[i] == Serving(s.published)
    ensures s.published.Some? && !s.shutdown ==> s.published.value !in s.closed
  {
    hide Locks, Runs, Publication, Liveness, Stopping, Timers, Carried;
  }

  /** A retry waits until the run it is for has closed its store and its done channel. */
  lemma RetryWaits(s: State, i: nat, choice: Choice)
    requires i < |s.threads| && s.threads[i].WaitRetired?
    ensures Possible(s, Go(i, choice)) <==> s.threads[i].run in s.closed
  {
  }

  /** A cancelled run lets go by two steps of its own that wait for nobody: a stop that waits for it is not held up by requests. */
  lemma CancelledExitIsPrompt(s: State, i: nat, choice: Choice)
    requires i < |s.threads| && s.threads[i].Exited? && (s.threads[i].run in s.cancelled || s.shutdown)
    ensures var exit := [Go(i, choice), Go(i, choice)];
      && Legal(s, exit) && s.threads[i].run in Run(s, exit).closed
      && i < |Run(s, exit).threads| && Run(s, exit).threads[i].Finished?
    ensures forall j :: 0 <= j < |s.threads| ==> !WaitsFor(s, i, j)
  {
    var a := Go(i, choice);
    var s1 := Next(s, a);
    assert s1.threads[i] == Closing(s.threads[i].run, false);
    TwoSteps(s, a);
    hide Legal, Run;
    assert Next(s1, a).threads[i] == Finished;
  }
}
