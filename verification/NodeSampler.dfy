/**
 The node-wide sampler (sampleOnce of internal/monitor/server.go, Delta of quota.go,
 LatestCounters of store.go), for one direction of the interface: cumulative counters
 that restart from zero on a reboot become deltas, and the last stored reading is
 picked up again by the next process.
 */
module NodeSampler {
  import opened Wrappers

  /** A counter below its last reading was reset: nothing is charged for it. */
  function Delta(previous: nat, current: nat): nat {
    if current < previous then 0 else current - previous
  }

  datatype Insert = Works | Fails | WorksButFails

  /**
   The interface's counter and every byte it ever counted; the newest stored reading
   and the sum of the stored deltas; and the reading the process holds, if one runs.
   */
  datatype State = State(current: nat, counted: nat, latest: Option<nat>, recorded: nat, alive: bool, prev: Option<nat>)

  const INITIAL: State := State(0, 0, None, 0, false, None)

  datatype Event =
    | Count(bytes: nat)
    | Reboot
    | Stop
    | Start(readable: bool)
    | Sample(readable: bool, insert: Insert)
    | FoldEverything

  function Charge(prev: Option<nat>, current: nat): nat {
    if prev.None? then 0 else Delta(prev.value, current)
  }

  function Step(s: State, e: Event): State {
    match e
    case Count(n) => s.(current := s.current + n, counted := s.counted + n)
    case Reboot => s.(current := 0, alive := false, prev := None)
    case Stop => s.(alive := false, prev := None)
    case Start(readable) => if s.alive then s else s.(alive := true, prev := if readable then s.latest else None)
    case Sample(readable, insert) =>
      if !s.alive || !readable then s
      else if insert == Fails then s.(prev := Some(s.current))
      else s.(prev := Some(s.current), latest := Some(s.current), recorded := s.recorded + Charge(s.prev, s.current))
    case FoldEverything => s.(latest := None)
  }

  function Run(s: State, events: seq<Event>): State {
    if events == [] then s else Step(Run(s, events[..|events| - 1]), events[|events| - 1])
  }

  /** What is stored, and what the next sample would add to it from either starting point, was counted. */
  ghost predicate Covered(s: State) {
    && s.recorded <= s.counted
    && (s.prev.Some? ==> s.recorded + Delta(s.prev.value, s.current) <= s.counted)
    && (s.latest.Some? ==> s.recorded + Delta(s.latest.value, s.current) <= s.counted)
    && (!s.alive ==> s.prev.None?)
  }

  lemma StepCovered(s: State, e: Event)
    requires Covered(s)
    ensures Covered(Step(s, e))
  {
  }

  /** Through reboots, crashes, lost inserts and refolded histories, never more is stored than was counted. */
  lemma {:induction false} NeverOvercharges(events: seq<Event>)
    ensures Covered(Run(INITIAL, events))
    ensures Run(INITIAL, events).recorded <= Run(INITIAL, events).counted
  {
    if events != [] {
      NeverOvercharges(events[..|events| - 1]);
      StepCovered(Run(INITIAL, events[..|events| - 1]), events[|events| - 1]);
    }
  }

  /** Nothing that loses bytes: no reboot, no failed insert, no unread history. Restarts are fine. */
  predicate Calm(e: Event) {
    match e
    case Reboot => false
    case FoldEverything => false
    case Start(readable) => readable
    case Sample(_, insert) => insert == Works
    case _ => true
  }

  ghost predicate Following(s: State) {
    && s.latest.Some? && s.latest.value <= s.current
    && (s.alive ==> s.prev == s.latest) && (!s.alive ==> s.prev.None?)
  }

  /** Counted, but neither stored nor still to be charged. */
  function Lost(s: State): int
    requires s.latest.Some?
  {
    s.counted - s.recorded - (s.current - s.latest.value)
  }

  lemma CalmStep(s: State, e: Event)
    requires Following(s) && Calm(e)
    ensures Following(Step(s, e)) && Lost(Step(s, e)) == Lost(s)
  {
  }

  /** Restarting the monitor loses nothing: what passed while it was down is charged by its first sample. */
  lemma {:induction false} RestartsLoseNothing(s: State, events: seq<Event>)
    requires Following(s) && forall i :: 0 <= i < |events| ==> Calm(events[i])
    ensures Following(Run(s, events)) && Lost(Run(s, events)) == Lost(s)
  {
    if events != [] {
      RestartsLoseNothing(s, events[..|events| - 1]);
      CalmStep(Run(s, events[..|events| - 1]), events[|events| - 1]);
    }
  }

  /** After a failed insert the running process forgets the delta, but the next one charges it. */
  lemma FailedInsertIsRecovered(s: State)
    requires Following(s) && s.alive
    ensures var failed := Step(s, Sample(true, Fails));
      && Step(failed, Sample(true, Works)).recorded == s.recorded
      && Step(Step(Step(failed, Stop), Start(true)), Sample(true, Works)).recorded == s.recorded + (s.current - s.latest.value)
  {
    var failed := Step(s, Sample(true, Fails));
    assert failed.prev == Some(s.current) && failed.latest == s.latest;
    assert Step(failed, Stop).latest == s.latest;
    assert Step(Step(failed, Stop), Start(true)).prev == s.latest;
  }

  /**
   A reboot, exactly: the first sample after it charges nothing while the counter is below
   the last stored reading, and what it is above that reading once it has passed it.
   */
  lemma RebootLosesExactly(s: State, bytes: nat)
    requires s.latest.Some?
    ensures var t := Run(s, [Reboot, Count(bytes), Start(true), Sample(true, Works)]);
      && t.recorded - s.recorded == (if bytes < s.latest.value then 0 else bytes - s.latest.value)
      && t.counted == s.counted + bytes && t.latest == Some(bytes)
  {
    var s1 := Step(s, Reboot);
    var s2 := Step(s1, Count(bytes));
    var s3 := Step(s2, Start(true));
    assert [Reboot][..0] == [] && [Reboot, Count(bytes)][..1] == [Reboot];
    assert [Reboot, Count(bytes), Start(true)][..2] == [Reboot, Count(bytes)];
    assert [Reboot, Count(bytes), Start(true), Sample(true, Works)][..3] == [Reboot, Count(bytes), Start(true)];
    assert Run(s, [Reboot]) == s1;
    assert Run(s, [Reboot, Count(bytes)]) == s2;
    assert Run(s, [Reboot, Count(bytes), Start(true)]) == s3;
  }

  lemma Runs3(s: State, a: Event, b: Event, c: Event)
    ensures Run(s, [a, b, c]) == Step(Step(Step(s, a), b), c)
  {
    assert [a][..0] == [] && [a, b][..1] == [a] && [a, b, c][..2] == [a, b];
    assert Run(s, [a]) == Step(s, a);
    assert Run(s, [a, b]) == Step(Step(s, a), b);
  }

  /** What passes while the monitor is down is charged by its first sample if it can read its last stored reading, and forgotten if it cannot. */
  lemma DowntimeIsCharged(s: State, bytes: nat, readable: bool)
    requires Following(s)
    ensures var t := Step(Run(s, [Stop, Count(bytes), Start(readable)]), Sample(true, Works));
      t.recorded - s.recorded == (if readable then s.current - s.latest.value + bytes else 0) && t.latest == Some(s.current + bytes)
  {
    Runs3(s, Stop, Count(bytes), Start(readable));
  }

  class Sampler {
    /** The last reading, if havePrev. */
    var prev: nat
    var havePrev: bool

    /** In the store: the newest reading, and the stored deltas' sum. */
    var latest: Option<nat>
    var recorded: nat

    /** The interface: its counter, and what it ever counted. */
    var current: nat
    ghost var counted: nat

    ghost function Machine(): State
      reads this
    {
      State(current, counted, latest, recorded, true, if havePrev then Some(prev) else None)
    }

    /** Run, before its loop: the newest stored reading is picked up, if there is one and it can be read. */
    constructor (ghost before: State, latest: Option<nat>, recorded: nat, current: nat, readable: bool)
      requires !before.alive && before.latest == latest && before.recorded == recorded && before.current == current
      ensures Machine() == Step(before, Start(readable))
    {
      havePrev := readable && latest.Some?;
      prev := if readable && latest.Some? then latest.value else 0;
      this.latest, this.recorded, this.current, counted := latest, recorded, current, before.counted;
    }

    method ReadCounters(readable: bool) returns (counter: Option<nat>)
      ensures counter == if readable then Some(current) else None
    {
      return if readable then Some(current) else None;
    }

    method InsertSample(counter: nat, delta: nat, insert: Insert) returns (ok: bool)
      modifies this`latest, this`recorded
      ensures ok == (insert == Works)
      ensures if insert == Fails then latest == old(latest) && recorded == old(recorded)
        else latest == Some(counter) && recorded == old(recorded) + delta
    {
      if insert != Fails {
        latest, recorded := Some(counter), recorded + delta;
      }
      return insert == Works;
    }

    /** sampleOnce, one direction; the quota is looked at after a sample known to be stored. */
    method SampleOnce(readable: bool, insert: Insert) returns (enforces: bool)
      modifies this
      ensures Machine() == Step(old(Machine()), Sample(readable, insert))
      ensures enforces == (readable && insert == Works)
    {
      var counter := ReadCounters(readable);
      if counter.None? { return false; }
      var delta := 0;
      if havePrev {
        delta := Delta(prev, counter.value);
      }
      prev, havePrev := counter.value, true;
      enforces := InsertSample(counter.value, delta, insert);
    }
  }
}
