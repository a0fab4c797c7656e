/**
 The agent's mutation gate (cmd/singbox-deploy-agent/handler.go): a channel holding at
 most one token lets one mutating handler run at a time, and none once a restart or a
 shutdown is on its way. Handlers step through the gate in any interleaving; a request
 context may be cancelled at any moment.
 */
module MutationGate {

  /** Where a mutating request stands; Holding has the token but has not yet looked at the flags. */
  datatype Place = Arriving | Waiting | Holding | Body | Returning | Gone

  datatype State = State(handlers: seq<Place>, tokens: nat, restartPending: bool, shutdownPending: bool)

  const INITIAL: State := State([], 1, false, false)

  datatype Ending = Finishes | CommitsUpgrade | CommitsUninstall

  datatype Action =
    | Arrive
    | Advance(i: nat, cancelled: bool, ending: Ending)

  predicate HasToken(p: Place) {
    p.Holding? || p.Body? || p.Returning?
  }

  function Holders(handlers: seq<Place>): nat {
    if handlers == [] then 0
    else Holders(handlers[..|handlers| - 1]) + if HasToken(handlers[|handlers| - 1]) then 1 else 0
  }

  predicate Pending(s: State) {
    s.restartPending || s.shutdownPending
  }

  /** A receive needs a token; a cancelled context also ends the wait. */
  predicate Possible(s: State, a: Action) {
    match a
    case Arrive => true
    case Advance(i, cancelled, _) =>
      i < |s.handlers| && !s.handlers[i].Gone? && (s.handlers[i].Waiting? && !cancelled ==> s.tokens > 0)
  }

  function Move(s: State, i: nat, p: Place): State
    requires i < |s.handlers|
  {
    s.(handlers := s.handlers[i := p])
  }

  function Next(s: State, a: Action): State
    requires Possible(s, a)
  {
    match a
    case Arrive => s.(handlers := s.handlers + [Arriving])
    case Advance(i, cancelled, ending) =>
      match s.handlers[i]
      case Arriving => Move(s, i, if cancelled then Gone else Waiting)
      case Waiting => if cancelled then Move(s, i, Gone) else Move(s.(tokens := s.tokens - 1), i, Holding)
      case Holding => Move(s, i, if cancelled || Pending(s) then Returning else Body)
      case Body =>
        Move(s.(restartPending := s.restartPending || ending.CommitsUpgrade?,
                shutdownPending := s.shutdownPending || ending.CommitsUninstall?), i, Returning)
      case Returning => Move(s.(tokens := s.tokens + 1), i, Gone)
  }

  ghost predicate Legal(s: State, actions: seq<Action>)
    decreases actions
  {
    actions == [] || (Possible(s, actions[0]) && Legal(Next(s, actions[0]), actions[1..]))
  }

  function Run(s: State, actions: seq<Action>): State
    requires Legal(s, actions)
    decreases actions
  {
    if actions == [] then s else Run(Next(s, actions[0]), actions[1..])
  }

  // ------------------------------------------------------------ what every step keeps

  ghost predicate Inv(s: State) {
    && s.tokens + Holders(s.handlers) == 1
    && (Pending(s) ==> forall i :: 0 <= i < |s.handlers| ==> !s.handlers[i].Body?)
  }

  lemma {:induction false} HoldersUpdate(handlers: seq<Place>, i: nat, p: Place)
    requires i < |handlers|
    ensures Holders(handlers[i := p]) + (if HasToken(handlers[i]) then 1 else 0)
         == Holders(handlers) + (if HasToken(p) then 1 else 0)
  {
    var last := |handlers| - 1;
    if i == last {
      assert handlers[i := p][..last] == handlers[..last];
    } else {
      assert handlers[i := p][..last] == handlers[..last][i := p];
      HoldersUpdate(handlers[..last], i, p);
    }
  }

  lemma {:induction false} TwoHolders(handlers: seq<Place>, i: nat, j: nat)
    requires i < j < |handlers| && HasToken(handlers[i]) && HasToken(handlers[j])
    ensures Holders(handlers) >= 2
  {
    var last := |handlers| - 1;
    if j < last {
      TwoHolders(handlers[..last], i, j);
    } else {
      OneHolder(handlers[..last], i);
    }
  }

  lemma {:induction false} OneHolder(handlers: seq<Place>, i: nat)
    requires i < |handlers| && HasToken(handlers[i])
    ensures Holders(handlers) >= 1
  {
    if i < |handlers| - 1 {
      OneHolder(handlers[..|handlers| - 1], i);
    }
  }

  lemma NextInv(s: State, a: Action)
    requires Inv(s) && Possible(s, a)
    ensures Inv(Next(s, a))
  {
    match a
    case Arrive =>
      assert (s.handlers + [Arriving])[..|s.handlers|] == s.handlers;
    case Advance(i, cancelled, ending) =>
      AdvanceKeepsToken(s, i, cancelled, ending);
      AdvanceKeepsPending(s, i, cancelled, ending);
      hide Holders, Next;
  }

  lemma AdvanceKeepsToken(s: State, i: nat, cancelled: bool, ending: Ending)
    requires Inv(s) && Possible(s, Advance(i, cancelled, ending))
    ensures var s' := Next(s, Advance(i, cancelled, ending)); s'.tokens + Holders(s'.handlers) == 1
  {
    HoldersUpdate(s.handlers, i, Next(s, Advance(i, cancelled, ending)).handlers[i]);
    hide Holders;
  }

  /** A body that ends is the only one, and none begins once something is pending. */
  lemma AdvanceKeepsPending(s: State, i: nat, cancelled: bool, ending: Ending)
    requires Inv(s) && Possible(s, Advance(i, cancelled, ending))
    ensures var s' := Next(s, Advance(i, cancelled, ending));
      Pending(s') ==> forall j :: 0 <= j < |s'.handlers| ==> !s'.handlers[j].Body?
  {
    if s.handlers[i].Body? { OnlyHolder(s, i); }
    hide Holders;
  }

  lemma OnlyHolder(s: State, i: nat)
    requires Inv(s) && i < |s.handlers| && HasToken(s.handlers[i])
    ensures forall j :: 0 <= j < |s.handlers| && j != i ==> !HasToken(s.handlers[j])
  {
    forall j | 0 <= j < |s.handlers| && j != i && HasToken(s.handlers[j]) ensures false {
      if i < j { TwoHolders(s.handlers, i, j); } else { TwoHolders(s.handlers, j, i); }
    }
  }

  lemma {:induction false} RunInv(s: State, actions: seq<Action>)
    requires Inv(s) && Legal(s, actions)
    ensures Inv(Run(s, actions))
    decreases actions
  {
    if actions != [] {
      hide Inv, Next;
      NextInv(s, actions[0]);
      RunInv(Next(s, actions[0]), actions[1..]);
    }
  }

  /**
   In every reachable state the token is either in the gate or with exactly one handler,
   so two mutation bodies never overlap, and once a restart or a shutdown is pending no
   body runs at all.
   */
  lemma GateExcludes(actions: seq<Action>)
    requires Legal(INITIAL, actions)
    ensures var s := Run(INITIAL, actions);
      && s.tokens + Holders(s.handlers) == 1
      && (forall i, j :: 0 <= i < j < |s.handlers| ==> !(s.handlers[i].Body? && s.handlers[j].Body?))
      && (Pending(s) ==> forall i :: 0 <= i < |s.handlers| ==> !s.handlers[i].Body?)
  {
    assert Holders([]) == 0;
    RunInv(INITIAL, actions);
    var s := Run(INITIAL, actions);
    forall i, j | 0 <= i < j < |s.handlers| && s.handlers[i].Body? ensures !s.handlers[j].Body? {
      if s.handlers[j].Body? { TwoHolders(s.handlers, i, j); }
    }
  }

  /** A committed upgrade or uninstall is never taken back, so no later request ever gets its body run. */
  lemma {:induction false} PendingForever(s: State, actions: seq<Action>)
    requires Inv(s) && Pending(s) && Legal(s, actions)
    ensures Pending(Run(s, actions))
    ensures forall i :: 0 <= i < |Run(s, actions).handlers| ==> !Run(s, actions).handlers[i].Body?
    decreases actions
  {
    if actions != [] {
      NextInv(s, actions[0]);
      PendingForever(Next(s, actions[0]), actions[1..]);
    }
  }

  /** While the token is out its holder can always go on, and its last step puts it back: waiting is never for nothing. */
  lemma {:induction false} TokenComesBack(s: State) returns (i: nat)
    requires Inv(s) && s.tokens == 0
    ensures i < |s.handlers| && HasToken(s.handlers[i])
    ensures forall cancelled: bool, ending: Ending :: Possible(s, Advance(i, cancelled, ending))
    ensures Legal(s, Release(s.handlers[i], i)) && Run(s, Release(s.handlers[i], i)).tokens == 1
  {
    i := FindHolder(s.handlers);
    var go := Advance(i, true, Finishes);
    if s.handlers[i].Returning? {
      RunOne(s, go);
    } else {
      RunOne(Next(s, go), go);
      assert [go, go][1..] == [go];
    }
  }

  lemma RunOne(s: State, a: Action)
    requires Possible(s, a)
    ensures Legal(s, [a]) && Run(s, [a]) == Next(s, a)
  {
    assert [a][1..] == [];
  }

  /** The steps that take a holder out of the gate. */
  function Release(p: Place, i: nat): seq<Action> {
    var go := Advance(i, true, Finishes);
    if p.Returning? then [go] else [go, go]
  }

  lemma {:induction false} FindHolder(handlers: seq<Place>) returns (i: nat)
    requires Holders(handlers) == 1
    ensures i < |handlers| && HasToken(handlers[i])
  {
    if HasToken(handlers[|handlers| - 1]) {
      i := |handlers| - 1;
    } else {
      i := FindHolder(handlers[..|handlers| - 1]);
    }
  }

  // ------------------------------------------------------------ what a commit does, and a wait comes to

  /** The step by which a running body commits an upgrade, or an uninstall. */
  predicate Commits(s: State, a: Action, ending: Ending) {
    a.Advance? && a.i < |s.handlers| && s.handlers[a.i].Body? && a.ending == ending
  }

  ghost predicate Committed(s: State, actions: seq<Action>, ending: Ending)
    requires Legal(s, actions)
    decreases actions
  {
    actions != [] && (Commits(s, actions[0], ending) || Committed(Next(s, actions[0]), actions[1..], ending))
  }

  /** Over any run each flag is set exactly if it was or a body committed to what it announces. */
  lemma {:induction false} PendingMeansCommitted(s: State, actions: seq<Action>)
    requires Legal(s, actions)
    ensures Run(s, actions).restartPending <==> s.restartPending || Committed(s, actions, CommitsUpgrade)
    ensures Run(s, actions).shutdownPending <==> s.shutdownPending || Committed(s, actions, CommitsUninstall)
    decreases actions
  {
    if actions != [] {
      PendingMeansCommitted(Next(s, actions[0]), actions[1..]);
      FlagsStep(s, actions[0]);
      hide Next, Possible, Commits;
    }
  }

  lemma FlagsStep(s: State, a: Action)
    requires Possible(s, a)
    ensures Next(s, a).restartPending <==> s.restartPending || Commits(s, a, CommitsUpgrade)
    ensures Next(s, a).shutdownPending <==> s.shutdownPending || Commits(s, a, CommitsUninstall)
  {
  }

  /** Once a body has committed to an upgrade or an uninstall no body ever runs again, whoever waits or comes later. */
  lemma CommitIsFinal(s: State, i: nat, cancelled: bool, ending: Ending, actions: seq<Action>)
    requires Inv(s) && i < |s.handlers| && s.handlers[i].Body? && ending != Finishes
    requires Legal(Next(s, Advance(i, cancelled, ending)), actions)
    ensures var t := Run(Next(s, Advance(i, cancelled, ending)), actions);
      Pending(t) && forall j :: 0 <= j < |t.handlers| ==> !t.handlers[j].Body?
  {
    var a := Advance(i, cancelled, ending);
    NextInv(s, a);
    FlagsStep(s, a);
    hide Inv, Next;
    PendingForever(Next(s, a), actions);
  }

  /** A handler that holds the token, is not cancelled and finds nothing pending runs its body; any other gives the token back. */
  lemma HoldingDecides(s: State, i: nat, cancelled: bool, ending: Ending)
    requires i < |s.handlers| && s.handlers[i].Holding?
    ensures var t := Next(s, Advance(i, cancelled, ending));
      && (t.handlers[i].Body? <==> !cancelled && !s.restartPending && !s.shutdownPending)
      && (!t.handlers[i].Body? ==> Next(t, Advance(i, cancelled, ending)).tokens == s.tokens + 1)
  {
  }

  /** While nothing is pending, a handler that waits can always come to run its body: others only have to leave the gate. */
  lemma WaitingGetsItsTurn(s: State, i: nat) returns (actions: seq<Action>)
    requires Inv(s) && !Pending(s) && i < |s.handlers| && s.handlers[i].Waiting?
    ensures Legal(s, actions) && i < |Run(s, actions).handlers| && Run(s, actions).handlers[i].Body?
  {
    var take := Advance(i, false, Finishes);
    if s.tokens > 0 {
      TakesTurn(s, i);
      return [take, take];
    }
    var holder := TokenComesBack(s);
    var release := Release(s.handlers[holder], holder);
    ReleaseLeaves(s, holder, i);
    TakesTurn(Run(s, release), i);
    LegalJoin(s, release, [take, take]);
    actions := release + [take, take];
  }

  lemma TakesTurn(s: State, i: nat)
    requires !Pending(s) && i < |s.handlers| && s.handlers[i].Waiting? && s.tokens > 0
    ensures var take := Advance(i, false, Finishes);
      Legal(s, [take, take]) && Run(s, [take, take]).handlers == s.handlers[i := Body]
  {
    var take := Advance(i, false, Finishes);
    assert [take, take][1..] == [take];
    RunOne(Next(s, take), take);
    assert s.handlers[i := Holding][i := Body] == s.handlers[i := Body];
  }

  lemma ReleaseLeaves(s: State, holder: nat, i: nat)
    requires holder < |s.handlers| && HasToken(s.handlers[holder]) && i < |s.handlers| && s.handlers[i].Waiting?
    requires Legal(s, Release(s.handlers[holder], holder))
    ensures var t := Run(s, Release(s.handlers[holder], holder));
      i < |t.handlers| && t.handlers[i].Waiting? && Pending(t) == Pending(s)
  {
    var go := Advance(holder, true, Finishes);
    if s.handlers[holder].Returning? {
      RunOne(s, go);
    } else {
      RunOne(Next(s, go), go);
      assert [go, go][1..] == [go];
    }
  }

  lemma {:induction false} LegalJoin(s: State, first: seq<Action>, rest: seq<Action>)
    requires Legal(s, first) && Legal(Run(s, first), rest)
    ensures Legal(s, first + rest) && Run(s, first + rest) == Run(Run(s, first), rest)
    decreases first
  {
    hide Possible, Next;
    if first == [] {
      assert [] + rest == rest;
    } else {
      assert (first + rest)[1..] == first[1..] + rest;
      LegalJoin(Next(s, first[0]), first[1..], rest);
    }
  }

  /** So a request that arrives while nothing is pending can always come to run its body. */
  lemma RequestGetsItsTurn(s: State) returns (actions: seq<Action>)
    requires Inv(s) && !Pending(s)
    ensures actions != [] && actions[0] == Arrive && Legal(s, actions)
    ensures |s.handlers| < |Run(s, actions).handlers| && Run(s, actions).handlers[|s.handlers|].Body?
  {
    var i := |s.handlers|;
    var enter := Advance(i, false, Finishes);
    NextInv(s, Arrive);
    NextInv(Next(s, Arrive), enter);
    var waiting := Next(Next(s, Arrive), enter);
    var rest := WaitingGetsItsTurn(waiting, i);
    actions := [Arrive, enter] + rest;
    assert actions[1..] == [enter] + rest && ([enter] + rest)[1..] == rest;
    hide Next, Possible;
    assert Legal(Next(s, Arrive), [enter] + rest) && Run(Next(s, Arrive), [enter] + rest) == Run(waiting, rest);
  }

  /** A cancelled request that has not begun its body never does: its next step takes it out, or gives the token back. */
  lemma CancelledGoes(s: State, i: nat, ending: Ending)
    requires Possible(s, Advance(i, true, ending)) && !s.handlers[i].Body?
    ensures var p := Next(s, Advance(i, true, ending)).handlers[i]; p.Gone? || p.Returning?
    ensures s.handlers[i].Arriving? || s.handlers[i].Waiting? ==> Next(s, Advance(i, true, ending)).handlers[i].Gone?
  {
  }
}
