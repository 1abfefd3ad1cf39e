/**
  What the transition table amounts to, told the other way round: which states can come just before a
  state, in a walk or in a stored history, and how many transitions lead from a state to an end.
 */
module ExecutionPaths {
  import opened Wrappers
  import opened GraphSearch
  import opened ExecutionState

  /** The states from which a record may enter this one. */
  function Before(s: State): set<State> {
    match s
    case SIGNAL_RECEIVED => {}
    case GOVERNANCE_VALIDATED => {SIGNAL_RECEIVED}
    case PERMISSION_VALIDATED => {SIGNAL_RECEIVED, GOVERNANCE_VALIDATED}
    case RISK_APPROVED => {SIGNAL_RECEIVED, PERMISSION_VALIDATED}
    case SUBMISSION_PENDING => {RISK_APPROVED}
    case BROKER_ACKNOWLEDGED => {SUBMISSION_PENDING, RECOVERY_PENDING}
    case PARTIALLY_FILLED => {BROKER_ACKNOWLEDGED}
    case FILLED => {BROKER_ACKNOWLEDGED, PARTIALLY_FILLED}
    case REJECTED => {SUBMISSION_PENDING}
    case CANCELLED => {PARTIALLY_FILLED}
    case RECOVERY_PENDING => {SUBMISSION_PENDING, PARTIALLY_FILLED}
    case RECONCILED => {BROKER_ACKNOWLEDGED, FILLED, RECOVERY_PENDING}
    case JOURNALED => {BROKER_ACKNOWLEDGED, FILLED, RECONCILED}
    case PROJECTED => {FILLED, RECONCILED, JOURNALED}
    case COMPLETED => {FILLED, RECONCILED, JOURNALED, PROJECTED}
    case FAILED_TERMINAL => {SIGNAL_RECEIVED, GOVERNANCE_VALIDATED, PERMISSION_VALIDATED, RISK_APPROVED,
                             SUBMISSION_PENDING, BROKER_ACKNOWLEDGED, RECOVERY_PENDING}
  }

  lemma AllowedIsBefore(s: State, t: State)
    ensures t in Allowed(s) <==> s in Before(t)
  {
    match s
    case SIGNAL_RECEIVED => assert SIGNAL_RECEIVED in Before(t) <==> t in Allowed(SIGNAL_RECEIVED);
    case GOVERNANCE_VALIDATED => assert GOVERNANCE_VALIDATED in Before(t) <==> t in Allowed(GOVERNANCE_VALIDATED);
    case PERMISSION_VALIDATED => assert PERMISSION_VALIDATED in Before(t) <==> t in Allowed(PERMISSION_VALIDATED);
    case RISK_APPROVED => assert RISK_APPROVED in Before(t) <==> t in Allowed(RISK_APPROVED);
    case SUBMISSION_PENDING => assert SUBMISSION_PENDING in Before(t) <==> t in Allowed(SUBMISSION_PENDING);
    case BROKER_ACKNOWLEDGED => assert BROKER_ACKNOWLEDGED in Before(t) <==> t in Allowed(BROKER_ACKNOWLEDGED);
    case PARTIALLY_FILLED => assert PARTIALLY_FILLED in Before(t) <==> t in Allowed(PARTIALLY_FILLED);
    case FILLED => assert FILLED in Before(t) <==> t in Allowed(FILLED);
    case REJECTED => assert REJECTED in Before(t) <==> t in Allowed(REJECTED);
    case CANCELLED => assert CANCELLED in Before(t) <==> t in Allowed(CANCELLED);
    case RECOVERY_PENDING => assert RECOVERY_PENDING in Before(t) <==> t in Allowed(RECOVERY_PENDING);
    case RECONCILED => assert RECONCILED in Before(t) <==> t in Allowed(RECONCILED);
    case JOURNALED => assert JOURNALED in Before(t) <==> t in Allowed(JOURNALED);
    case PROJECTED => assert PROJECTED in Before(t) <==> t in Allowed(PROJECTED);
    case COMPLETED => assert COMPLETED in Before(t) <==> t in Allowed(COMPLETED);
    case FAILED_TERMINAL => assert FAILED_TERMINAL in Before(t) <==> t in Allowed(FAILED_TERMINAL);
  }

  /** A record has ended exactly in the states that nothing leaves. */
  lemma EndsAreStuck(s: State)
    ensures s in {COMPLETED, FAILED_TERMINAL, CANCELLED, REJECTED} <==> s in TERMINAL_STATES
    ensures s in TERMINAL_STATES <==> forall t :: s !in Before(t)
  {
    forall t ensures t in Allowed(s) <==> s in Before(t) {
      AllowedIsBefore(s, t);
    }
    if s !in TERMINAL_STATES {
      var t :| t in Allowed(s);
      assert s in Before(t);
    }
  }

  // ---- What comes before ----

  /** Some walk from the first state ends with these two. */
  ghost predicate CanFollow(source: State, target: State) {
    exists walk | IsPath(Allowed, walk) && |walk| > 1 ::
      walk[0] == SIGNAL_RECEIVED && walk[|walk| - 2] == source && Last(walk) == target
  }

  function Rank(s: State): nat {
    match s
    case SIGNAL_RECEIVED => 1
    case GOVERNANCE_VALIDATED | PERMISSION_VALIDATED | RISK_APPROVED | FAILED_TERMINAL => 2
    case SUBMISSION_PENDING => 3
    case BROKER_ACKNOWLEDGED | REJECTED | RECOVERY_PENDING => 4
    case PARTIALLY_FILLED | FILLED | RECONCILED | JOURNALED => 5
    case CANCELLED | PROJECTED | COMPLETED => 6
  }

  /** A state one step nearer to the first one. */
  function Via(s: State): State {
    match s
    case GOVERNANCE_VALIDATED | PERMISSION_VALIDATED | RISK_APPROVED | FAILED_TERMINAL => SIGNAL_RECEIVED
    case SUBMISSION_PENDING => RISK_APPROVED
    case BROKER_ACKNOWLEDGED | REJECTED | RECOVERY_PENDING => SUBMISSION_PENDING
    case PARTIALLY_FILLED | FILLED | RECONCILED | JOURNALED => BROKER_ACKNOWLEDGED
    case CANCELLED => PARTIALLY_FILLED
    case PROJECTED | COMPLETED => FILLED
    case SIGNAL_RECEIVED => SIGNAL_RECEIVED
  }

  /** A way to every state. */
  function WayTo(s: State): seq<State>
    decreases Rank(s)
  {
    if s == SIGNAL_RECEIVED then [s] else WayTo(Via(s)) + [s]
  }

  lemma OneMore(walk: seq<State>, t: State)
    requires IsPath(Allowed, walk) && t in Allowed(Last(walk))
    ensures IsPath(Allowed, walk + [t]) && (walk + [t])[0] == walk[0] && Last(walk + [t]) == t
  {
  }

  /** Every state is on the way of some record. */
  lemma {:induction false} EveryStateIsReached(s: State)
    ensures Joins(Allowed, WayTo(s), SIGNAL_RECEIVED, s)
    decreases Rank(s)
  {
    if s != SIGNAL_RECEIVED {
      EveryStateIsReached(Via(s));
      OneMore(WayTo(Via(s)), s);
    }
  }

  lemma LastTwo(walk: seq<State>)
    requires IsPath(Allowed, walk) && |walk| > 1
    ensures walk[|walk| - 2] in Before(Last(walk))
  {
    assert walk[|walk| - 2 + 1] in Allowed(walk[|walk| - 2]);
    AllowedIsBefore(walk[|walk| - 2], Last(walk));
  }

  lemma BeforeCanFollow(source: State, target: State)
    requires source in Before(target)
    ensures CanFollow(source, target)
  {
    AllowedIsBefore(source, target);
    EveryStateIsReached(source);
    var walk := WayTo(source) + [target];
    OneMore(WayTo(source), target);
    assert walk[|walk| - 2] == source;
  }

  lemma FollowNeedsBefore(source: State, target: State)
    requires CanFollow(source, target)
    ensures source in Before(target)
  {
    var walk :| IsPath(Allowed, walk) && |walk| > 1
      && walk[0] == SIGNAL_RECEIVED && walk[|walk| - 2] == source && Last(walk) == target;
    LastTwo(walk);
  }

  /**
    One state can directly follow another in some walk from the first state exactly if the table read backwards says so.
   */
  lemma FollowsExactly(source: State, target: State)
    ensures CanFollow(source, target) <==> source in Before(target)
  {
    if source in Before(target) {
      BeforeCanFollow(source, target);
    } else if CanFollow(source, target) {
      FollowNeedsBefore(source, target);
    }
  }

  /** A completed record was filled, reconciled, journaled or projected just before. */
  lemma JustBeforeCompletion(walk: seq<State>)
    requires IsPath(Allowed, walk) && |walk| > 1 && Last(walk) == COMPLETED
    ensures walk[|walk| - 2] in {FILLED, RECONCILED, JOURNALED, PROJECTED}
  {
    LastTwo(walk);
  }

  /** No stored history enters a state from anywhere else. */
  lemma HistoryEnters(r: Record, k: nat)
    requires LegalHistory(r) && 0 < k < |r.history|
    ensures r.history[0].state == SIGNAL_RECEIVED && r.history[k - 1].state in Before(r.history[k].state)
  {
    var walk := StatesOf(r.history);
    assert walk[k - 1 + 1] in Allowed(walk[k - 1]);
    AllowedIsBefore(walk[k - 1], walk[k]);
  }

  // ---- How far it is ----

  /** The number of transitions to the end `goal`; none when it cannot be reached. */
  function Steps(s: State, goal: State): Option<nat> {
    match goal
    case COMPLETED => ToCompleted(s)
    case FAILED_TERMINAL => ToFailed(s)
    case REJECTED => ToRejected(s)
    case CANCELLED => ToCancelled(s)
    case _ => None
  }

  function ToCompleted(s: State): Option<nat> {
    match s
    case COMPLETED => Some(0)
    case FILLED | RECONCILED | JOURNALED | PROJECTED => Some(1)
    case BROKER_ACKNOWLEDGED | PARTIALLY_FILLED | RECOVERY_PENDING => Some(2)
    case SUBMISSION_PENDING => Some(3)
    case RISK_APPROVED => Some(4)
    case SIGNAL_RECEIVED | PERMISSION_VALIDATED => Some(5)
    case GOVERNANCE_VALIDATED => Some(6)
    case _ => None
  }

  function ToFailed(s: State): Option<nat> {
    match s
    case FAILED_TERMINAL => Some(0)
    case SIGNAL_RECEIVED | GOVERNANCE_VALIDATED | PERMISSION_VALIDATED | RISK_APPROVED | SUBMISSION_PENDING |
      BROKER_ACKNOWLEDGED | RECOVERY_PENDING => Some(1)
    case PARTIALLY_FILLED => Some(2)
    case _ => None
  }

  function ToRejected(s: State): Option<nat> {
    match s
    case REJECTED => Some(0)
    case SUBMISSION_PENDING => Some(1)
    case RISK_APPROVED => Some(2)
    case SIGNAL_RECEIVED | PERMISSION_VALIDATED => Some(3)
    case GOVERNANCE_VALIDATED => Some(4)
    case _ => None
  }

  function ToCancelled(s: State): Option<nat> {
    match s
    case CANCELLED => Some(0)
    case PARTIALLY_FILLED => Some(1)
    case BROKER_ACKNOWLEDGED => Some(2)
    case SUBMISSION_PENDING | RECOVERY_PENDING => Some(3)
    case RISK_APPROVED => Some(4)
    case SIGNAL_RECEIVED | PERMISSION_VALIDATED => Some(5)
    case GOVERNANCE_VALIDATED => Some(6)
    case _ => None
  }

  /** One transition brings an end nearer by one at most. */
  lemma StepIsNoShortcut(s: State, t: State, goal: State)
    requires goal in TERMINAL_STATES && t in Allowed(s) && Steps(t, goal).Some?
    ensures Steps(s, goal).Some? && Steps(s, goal).value <= Steps(t, goal).value + 1
  {
    AllowedIsBefore(s, t);
  }

  /** The state that comes next on a shortest walk. */
  function Nearer(s: State, goal: State): State
    requires goal in TERMINAL_STATES && Steps(s, goal).Some? && s != goal
  {
    if goal in Allowed(s) then goal
    else
      match s
      case SIGNAL_RECEIVED => RISK_APPROVED
      case GOVERNANCE_VALIDATED => PERMISSION_VALIDATED
      case PERMISSION_VALIDATED => RISK_APPROVED
      case RISK_APPROVED => SUBMISSION_PENDING
      case SUBMISSION_PENDING => BROKER_ACKNOWLEDGED
      case BROKER_ACKNOWLEDGED => if goal == CANCELLED then PARTIALLY_FILLED else FILLED
      case PARTIALLY_FILLED => if goal == COMPLETED then FILLED else RECOVERY_PENDING
      case RECOVERY_PENDING => if goal == COMPLETED then RECONCILED else BROKER_ACKNOWLEDGED
      case _ => COMPLETED
  }

  lemma NearerIsNearer(s: State, goal: State)
    requires goal in TERMINAL_STATES && Steps(s, goal).Some? && s != goal
    ensures Nearer(s, goal) in Allowed(s) && Steps(s, goal).value > 0
    ensures Steps(Nearer(s, goal), goal) == Some(Steps(s, goal).value - 1)
  {
  }

  lemma {:induction false} NoWalkIsShorter(walk: seq<State>, goal: State)
    requires IsPath(Allowed, walk) && Last(walk) == goal && goal in TERMINAL_STATES
    ensures Steps(walk[0], goal).Some? && Steps(walk[0], goal).value <= |walk| - 1
    decreases |walk|
  {
    if |walk| > 1 {
      var rest := walk[1..];
      forall i | 0 <= i < |rest| - 1 ensures rest[i + 1] in Allowed(rest[i]) {
        assert walk[i + 1 + 1] in Allowed(walk[i + 1]);
      }
      NoWalkIsShorter(rest, goal);
      assert walk[0 + 1] in Allowed(walk[0]);
      StepIsNoShortcut(walk[0], walk[1], goal);
    }
  }

  lemma {:induction false} WalkOfThatLength(s: State, goal: State) returns (walk: seq<State>)
    requires goal in TERMINAL_STATES && Steps(s, goal).Some?
    ensures Joins(Allowed, walk, s, goal) && |walk| == Steps(s, goal).value + 1
    decreases Steps(s, goal).value
  {
    if s == goal {
      walk := [s];
    } else {
      NearerIsNearer(s, goal);
      var rest := WalkOfThatLength(Nearer(s, goal), goal);
      walk := [s] + rest;
    }
  }

  /** An end can be reached exactly if its number of steps says so, and shortest walks have exactly that many. */
  lemma StepsAreExact(s: State, goal: State)
    requires goal in TERMINAL_STATES
    ensures Reachable(Allowed, s, goal) <==> Steps(s, goal).Some?
    ensures forall walk | IsShortest(Allowed, walk, s, goal) :: Steps(s, goal) == Some(|walk| - 1)
  {
    if walk :| Joins(Allowed, walk, s, goal) {
      NoWalkIsShorter(walk, goal);
    }
    if Steps(s, goal).Some? {
      var w := WalkOfThatLength(s, goal);
      forall walk | IsShortest(Allowed, walk, s, goal) ensures Steps(s, goal) == Some(|walk| - 1) {
        NoWalkIsShorter(walk, goal);
      }
    }
  }

  /**
    Taking a record to an end adds exactly that many transitions, all made now, and enters the end from where it may be
    entered.
   */
  lemma AdvanceIsExact(before: Record, after: Record, goal: State, now: int)
    requires LegalHistory(before) && goal in TERMINAL_STATES && Advanced(before, after, goal, now)
    ensures Steps(before.state, goal) == Some(|after.history| - |before.history|)
    ensures forall k | |before.history| <= k < |after.history| ::
      after.history[k].at == now && after.history[k - 1].state in Before(after.history[k].state)
  {
    var n := |before.history|;
    StepsAreExact(before.state, goal);
    assert |[before.state] + StatesOf(after.history[n..])| == |after.history| - n + 1;
    AdvancedIsSafe(before, after, goal, now);
    forall k | n <= k < |after.history|
      ensures after.history[k].at == now && after.history[k - 1].state in Before(after.history[k].state)
    {
      assert k > 0;
      HistoryEnters(after, k);
    }
  }
}
