/**
  The durable execution timeline of one order: its states, the legal transitions,
  and the store of execution records that the runtime and recovery share.
 */
module ExecutionState {
  import opened Wrappers
  import opened GraphSearch

  type ExecId = string

  datatype State =
    | SIGNAL_RECEIVED | GOVERNANCE_VALIDATED | PERMISSION_VALIDATED | RISK_APPROVED
    | SUBMISSION_PENDING | BROKER_ACKNOWLEDGED | PARTIALLY_FILLED | FILLED
    | REJECTED | CANCELLED | RECOVERY_PENDING | RECONCILED
    | JOURNALED | PROJECTED | COMPLETED | FAILED_TERMINAL

  const TERMINAL_STATES: set<State> := {COMPLETED, FAILED_TERMINAL, CANCELLED, REJECTED}

  const ALL_STATES: set<State> := set s: State | true

  function Allowed(s: State): set<State> {
    match s
    case SIGNAL_RECEIVED => {GOVERNANCE_VALIDATED, PERMISSION_VALIDATED, RISK_APPROVED, FAILED_TERMINAL}
    case GOVERNANCE_VALIDATED => {PERMISSION_VALIDATED, FAILED_TERMINAL}
    case PERMISSION_VALIDATED => {RISK_APPROVED, FAILED_TERMINAL}
    case RISK_APPROVED => {SUBMISSION_PENDING, FAILED_TERMINAL}
    case SUBMISSION_PENDING => {BROKER_ACKNOWLEDGED, RECOVERY_PENDING, FAILED_TERMINAL, REJECTED}
    case BROKER_ACKNOWLEDGED => {PARTIALLY_FILLED, FILLED, JOURNALED, RECONCILED, FAILED_TERMINAL}
    case PARTIALLY_FILLED => {FILLED, CANCELLED, RECOVERY_PENDING}
    case FILLED => {RECONCILED, JOURNALED, PROJECTED, COMPLETED}
    case REJECTED => {}
    case CANCELLED => {}
    case RECOVERY_PENDING => {RECONCILED, BROKER_ACKNOWLEDGED, FAILED_TERMINAL}
    case RECONCILED => {JOURNALED, PROJECTED, COMPLETED}
    case JOURNALED => {PROJECTED, COMPLETED}
    case PROJECTED => {COMPLETED}
    case COMPLETED => {}
    case FAILED_TERMINAL => {}
  }

  /** States that a record may still leave but from which failure is no longer reachable. */
  const PAST_FAILURE: set<State> := {FILLED, RECONCILED, JOURNALED, PROJECTED}

  /** What the first event of a record says about the order; lots are counted in whole steps. */
  datatype Meta = Meta(symbol: string, direction: string, lots: Option<int>)

  const NO_META := Meta("", "", None)

  datatype Event = Event(state: State, at: int, meta: Meta)

  datatype Record = Record(
    id: ExecId, strategyId: string, signalId: string, state: State,
    brokerOrderId: string, history: seq<Event>, updatedAt: int)
  {
    /** The metadata recorded when the signal was received. */
    function Metadata(): Meta {
      if history == [] then NO_META else history[0].meta
    }

    predicate Incomplete() {
      state !in TERMINAL_STATES
    }
  }

  datatype StoreError =
    | NotFound
    | IllegalTransition(source: State, target: State)
    | NoPath(source: State, target: State)

  function StatesOf(h: seq<Event>): (ss: seq<State>)
    ensures |ss| == |h| && forall i | 0 <= i < |h| :: ss[i] == h[i].state
  {
    seq(|h|, i requires 0 <= i < |h| => h[i].state)
  }

  /** The history is a legal walk from the first state to the present one. */
  ghost predicate LegalHistory(r: Record) {
    Joins(Allowed, StatesOf(r.history), SIGNAL_RECEIVED, r.state)
  }

  ghost predicate ValidStore(records: map<ExecId, Record>) {
    forall id | id in records :: records[id].id == id && LegalHistory(records[id])
  }

  function NewRecord(id: ExecId, strategyId: string, signalId: string, meta: Meta, now: int): Record {
    Record(id, strategyId, signalId, SIGNAL_RECEIVED, "", [Event(SIGNAL_RECEIVED, now, meta)], now)
  }

  /** One transition of a record; a move to the present state only attaches the order id and refreshes the clock. */
  function Move(r: Record, target: State, orderId: Option<string>, now: int): Result<Record, StoreError> {
    if target != r.state && target !in Allowed(r.state) then
      Err(IllegalTransition(r.state, target))
    else
      Ok(r.(state := target,
            history := if target != r.state then r.history + [Event(target, now, NO_META)] else r.history,
            brokerOrderId := if orderId.Some? then orderId.value else r.brokerOrderId,
            updatedAt := now))
  }

  /** `after` is `before` taken along some shortest legal path to `goal`. */
  ghost predicate Advanced(before: Record, after: Record, goal: State, now: int) {
    && |before.history| <= |after.history| && after.history[..|before.history|] == before.history
    && after == before.(state := goal, history := after.history,
                        updatedAt := if before.state == goal then before.updatedAt else now)
    && (forall k | |before.history| <= k < |after.history| :: after.history[k].at == now)
    && IsShortest(Allowed, [before.state] + StatesOf(after.history[|before.history|..]), before.state, goal)
  }

  // ---- Facts about the state machine ----

  lemma AllStatesClosed()
    ensures Closed(Allowed, ALL_STATES)
  {
  }

  lemma WalkTo(walk: seq<State>, start: State, goal: State)
    requires Joins(Allowed, walk, start, goal)
    ensures Reachable(Allowed, start, goal)
  {
  }

  /** Failure can be reached exactly from the states before the order was filled or reconciled. */
  lemma FailureReachable(s: State)
    ensures Reachable(Allowed, s, FAILED_TERMINAL) <==>
      s !in PAST_FAILURE && (s in TERMINAL_STATES ==> s == FAILED_TERMINAL)
  {
    var stuck := PAST_FAILURE + {COMPLETED, CANCELLED, REJECTED};
    if s in stuck {
      forall p | Joins(Allowed, p, s, FAILED_TERMINAL) ensures false {
        ClosedTrapsPaths(Allowed, stuck, p);
      }
    } else if s == FAILED_TERMINAL {
      WalkTo([s], s, s);
    } else if s == PARTIALLY_FILLED {
      WalkTo([s, RECOVERY_PENDING, FAILED_TERMINAL], s, FAILED_TERMINAL);
    } else {
      WalkTo([s, FAILED_TERMINAL], s, FAILED_TERMINAL);
    }
  }

  /** Completion can be reached from every state that is not already another end. */
  lemma CompletionReachable(s: State)
    ensures Reachable(Allowed, s, COMPLETED) <==> s !in {REJECTED, CANCELLED, FAILED_TERMINAL}
  {
    var done := [SIGNAL_RECEIVED, RISK_APPROVED, SUBMISSION_PENDING, BROKER_ACKNOWLEDGED, FILLED, COMPLETED];
    match s
    case SIGNAL_RECEIVED => WalkTo(done, s, COMPLETED);
    case GOVERNANCE_VALIDATED => WalkTo([s, PERMISSION_VALIDATED] + done[1..], s, COMPLETED);
    case PERMISSION_VALIDATED => WalkTo([s] + done[1..], s, COMPLETED);
    case RISK_APPROVED => WalkTo(done[1..], s, COMPLETED);
    case SUBMISSION_PENDING => WalkTo(done[2..], s, COMPLETED);
    case BROKER_ACKNOWLEDGED => WalkTo(done[3..], s, COMPLETED);
    case PARTIALLY_FILLED => WalkTo([s, FILLED, COMPLETED], s, COMPLETED);
    case RECOVERY_PENDING => WalkTo([s, RECONCILED, COMPLETED], s, COMPLETED);
    case COMPLETED => WalkTo([s], s, s);
    case REJECTED | CANCELLED | FAILED_TERMINAL =>
      forall p | Joins(Allowed, p, s, COMPLETED) ensures false {
        ClosedTrapsPaths(Allowed, {s}, p);
      }
    case _ => WalkTo([s, COMPLETED], s, COMPLETED);
  }

  /** The graph has a cycle, so moving along it is no progress measure. */
  lemma TransitionsCanCycle()
    ensures Joins(Allowed, [BROKER_ACKNOWLEDGED, PARTIALLY_FILLED, RECOVERY_PENDING, BROKER_ACKNOWLEDGED],
                  BROKER_ACKNOWLEDGED, BROKER_ACKNOWLEDGED)
  {
  }

  /** No transition takes a record out of a terminal state, rewrites its past, or makes its history illegal. */
  lemma MoveIsSafe(r: Record, target: State, orderId: Option<string>, now: int)
    requires LegalHistory(r) && Move(r, target, orderId, now).Ok?
    ensures var r' := Move(r, target, orderId, now).value;
      && LegalHistory(r') && r'.history[..|r.history|] == r.history
      && (!r.Incomplete() ==> r'.state == r.state && r'.history == r.history)
  {
    var r' := Move(r, target, orderId, now).value;
    if target != r.state {
      assert StatesOf(r'.history) == StatesOf(r.history) + [target];
    }
  }

  /** Advancing a record keeps its history a legal walk, however long the path is. */
  lemma AdvancedIsSafe(before: Record, after: Record, goal: State, now: int)
    requires LegalHistory(before) && Advanced(before, after, goal, now)
    ensures LegalHistory(after)
  {
    var n := |before.history|;
    var walk := StatesOf(after.history);
    var path := [before.state] + StatesOf(after.history[n..]);
    forall i | 0 <= i < |walk| - 1 ensures walk[i + 1] in Allowed(walk[i]) {
      if i < n - 1 {
        assert walk[i] == StatesOf(before.history)[i] && walk[i + 1] == StatesOf(before.history)[i + 1];
      } else {
        assert walk[i] == path[i - n + 1] && walk[i + 1] == path[i - n + 2];
      }
    }
    assert Last(walk) == Last(path);
    assert walk[0] == StatesOf(before.history)[0];
  }

  /** Whatever is reachable can be advanced to. */
  lemma AdvanceExists(before: Record, goal: State, now: int) returns (after: Record)
    requires Reachable(Allowed, before.state, goal)
    ensures Advanced(before, after, goal, now)
  {
    var p :| Joins(Allowed, p, before.state, goal);
    var path := ShortestExists(Allowed, p, before.state, goal);
    var steps := seq(|path| - 1, i requires 0 <= i < |path| - 1 => Event(path[i + 1], now, NO_META));
    after := before.(state := goal, history := before.history + steps,
                     updatedAt := if before.state == goal then before.updatedAt else now);
    assert after.history[|before.history|..] == steps;
    assert [before.state] + StatesOf(steps) == path;
  }

  ghost predicate Lists<T(!new)>(xs: seq<T>, s: set<T>) {
    (forall x :: x in xs <==> x in s) && forall i, j | 0 <= i < j < |xs| :: xs[i] != xs[j]
  }

  function IncompleteIds(records: map<ExecId, Record>): set<ExecId> {
    set id | id in records && records[id].Incomplete()
  }

  /** The incomplete records of one trading intent. */
  function ActiveIds(records: map<ExecId, Record>, signalId: string): set<ExecId> {
    set id | id in records && records[id].Incomplete() && records[id].signalId == signalId
  }

  ghost predicate IsLatest(records: map<ExecId, Record>, id: ExecId, among: set<ExecId>)
    requires among <= records.Keys
  {
    id in among && forall other | other in among :: records[other].updatedAt <= records[id].updatedAt
  }

  class ExecutionStateStore {
    var records: map<ExecId, Record>

    constructor ()
      ensures records == map[] && ValidStore(records)
    {
      records := map[];
    }

    method CreateRecord(id: ExecId, strategyId: string, signalId: string, meta: Meta, now: int)
      requires ValidStore(records) && id !in records
      modifies this
      ensures ValidStore(records)
      ensures records == old(records)[id := NewRecord(id, strategyId, signalId, meta, now)]
    {
      records := records[id := NewRecord(id, strategyId, signalId, meta, now)];
    }

    method Transition(id: ExecId, target: State, orderId: Option<string>, now: int)
      returns (r: Result<Record, StoreError>)
      requires ValidStore(records)
      modifies this
      ensures ValidStore(records)
      ensures r == if id in old(records) then Move(old(records)[id], target, orderId, now) else Err(NotFound)
      ensures records == if r.Ok? then old(records)[id := r.value] else old(records)
    {
      if id !in records {
        return Err(NotFound);
      }
      r := Move(records[id], target, orderId, now);
      if r.Ok? {
        MoveIsSafe(records[id], target, orderId, now);
        records := records[id := r.value];
      }
    }

    /** Every incomplete record once, in some order. */
    method RecoverIncomplete() returns (ids: seq<ExecId>)
      ensures Lists(ids, IncompleteIds(records))
    {
      ids := [];
      var todo := records.Keys;
      while todo != {}
        invariant todo <= records.Keys
        invariant Lists(ids, IncompleteIds(records) - todo)
        decreases todo
      {
        var id :| id in todo;
        todo := todo - {id};
        if records[id].Incomplete() {
          ids := ids + [id];
        }
      }
    }

    /** The duplicate-order gate: the latest incomplete record of the intent, if there is one. */
    method FindActiveByIdentity(signalId: string) returns (found: Option<ExecId>)
      ensures found.None? <==> ActiveIds(records, signalId) == {}
      ensures found.Some? ==> IsLatest(records, found.value, ActiveIds(records, signalId))
    {
      found := None;
      var todo := ActiveIds(records, signalId);
      while todo != {}
        invariant todo <= ActiveIds(records, signalId)
        invariant found.None? ==> todo == ActiveIds(records, signalId)
        invariant found.Some? ==> IsLatest(records, found.value, ActiveIds(records, signalId) - todo)
        decreases todo
      {
        var id :| id in todo;
        todo := todo - {id};
        if found.None? || records[found.value].updatedAt < records[id].updatedAt {
          found := Some(id);
        }
      }
    }

    /** Takes the record to `goal` along a shortest legal path, or leaves it alone when there is none. */
    method AdvanceToTerminal(id: ExecId, goal: State, now: int) returns (r: Result<Record, StoreError>)
      requires ValidStore(records) && id in records
      modifies this
      ensures ValidStore(records)
      ensures r.Ok? <==> Reachable(Allowed, old(records)[id].state, goal)
      ensures r.Ok? ==> Advanced(old(records)[id], r.value, goal, now) && records == old(records)[id := r.value]
      ensures r.Err? ==> r.error == NoPath(old(records)[id].state, goal) && records == old(records)
    {
      var first := records[id];
      AllStatesClosed();
      var path := ShortestPath(Allowed, ALL_STATES, first.state, goal);
      if path.None? {
        return Err(NoPath(first.state, goal));
      }
      var last := FollowPath(id, path.value, goal, now);
      return Ok(last);
    }

    /** Takes the record along a shortest path, one transition at a time; none of them can fail. */
    method FollowPath(id: ExecId, states: seq<State>, goal: State, now: int) returns (last: Record)
      requires ValidStore(records) && id in records && IsShortest(Allowed, states, records[id].state, goal)
      modifies this
      ensures ValidStore(records)
      ensures Advanced(old(records)[id], last, goal, now) && records == old(records)[id := last]
    {
      var first := records[id];
      last := first;
      var i := 1;
      while i < |states|
        invariant 1 <= i <= |states| && ValidStore(records)
        invariant records == old(records)[id := last] && Walked(first, last, states, i, now)
      {
        ghost var before := records;
        WalkedStep(first, last, states, i, now);
        var moved := Transition(id, states[i], None, now);
        last := moved.value;
        LastUpdateStands(old(records), before, id, last);
        i := i + 1;
      }
      WalkedAll(first, last, states, goal, now);
    }
  }

  lemma LastUpdateStands(records: map<ExecId, Record>, before: map<ExecId, Record>, id: ExecId, r: Record)
    requires id in before && before == records[id := before[id]]
    ensures before[id := r] == records[id := r]
  {
  }

  /** `cur` is `first` after the transitions to `states[1..i]`. */
  ghost predicate Walked(first: Record, cur: Record, states: seq<State>, i: nat, now: int) {
    && 1 <= i <= |states| && states[0] == first.state
    && |first.history| <= |cur.history| && cur.history[..|first.history|] == first.history
    && StatesOf(cur.history[|first.history|..]) == states[1..i]
    && (forall k | |first.history| <= k < |cur.history| :: cur.history[k].at == now)
    && cur == first.(state := states[i - 1], history := cur.history,
                     updatedAt := if i == 1 then first.updatedAt else now)
  }

  lemma WalkedStep(first: Record, cur: Record, states: seq<State>, i: nat, now: int)
    requires Walked(first, cur, states, i, now) && i < |states| && IsPath(Allowed, states)
    ensures Move(cur, states[i], None, now).Ok?
    ensures Walked(first, Move(cur, states[i], None, now).value, states, i + 1, now)
  {
    NoSelfLoops(states[i - 1]);
    assert states[i - 1 + 1] in Allowed(states[i - 1]);
    var n, next := |first.history|, Move(cur, states[i], None, now).value;
    assert next.history[n..] == cur.history[n..] + [Event(states[i], now, NO_META)];
    assert states[1..i + 1] == states[1..i] + [states[i]];
  }

  lemma WalkedAll(first: Record, cur: Record, states: seq<State>, goal: State, now: int)
    requires Walked(first, cur, states, |states|, now) && IsShortest(Allowed, states, first.state, goal)
    ensures Advanced(first, cur, goal, now)
  {
    assert [first.state] + states[1..] == states;
    if first.state == goal {
      assert Joins(Allowed, [first.state], first.state, goal);
    }
  }

  lemma NoSelfLoops(s: State)
    ensures s !in Allowed(s)
  {
  }
}
