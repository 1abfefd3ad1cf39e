/**
  Opening a position: the duplicate gate, the record's way to submission, and what happens to
  the record on each answer of the broker. A function here is one stretch of code between two
  points where the manager waits, so it runs without interruption.
 */
module TradeManagement {
  import opened Wrappers
  import opened ExecutionState

  const RETRY_ATTEMPTS: nat := 3

  /** How the manager classifies an error of the broker call. */
  datatype ErrorClass = Ambiguous | Transient | Permanent

  datatype Reply = Placed(orderId: string) | Failed(error: ErrorClass)

  datatype Opening = Suppressed | Submitted | Refused

  /** What the manager does after an answer: it is done, waits and tries again, or raises. */
  datatype Next = Acknowledged | RetryAfter(delay: nat) | Raised

  /** Applies the transitions in turn and stops at the first illegal one. */
  function MoveAll(r: Record, targets: seq<State>, now: int): (Record, bool)
    decreases |targets|
  {
    if targets == [] then (r, true)
    else
      var m := Move(r, targets[0], None, now);
      if m.Ok? then MoveAll(m.value, targets[1..], now) else (r, false)
  }

  function Route(governed: bool, permitted: bool): seq<State> {
    (if governed then [GOVERNANCE_VALIDATED] else []) + (if permitted then [PERMISSION_VALIDATED] else [])
    + [RISK_APPROVED, SUBMISSION_PENDING]
  }

  /** From the duplicate gate to the first submission. */
  function OpenSegment(records: map<ExecId, Record>, id: ExecId, strategyId: string, signalId: string, meta: Meta,
                       governed: bool, permitted: bool, now: int): (map<ExecId, Record>, Opening)
  {
    if ActiveIds(records, signalId) != {} then (records, Suppressed)
    else
      var (r, ok) := MoveAll(NewRecord(id, strategyId, signalId, meta, now), Route(governed, permitted), now);
      (records[id := r], if ok then Submitted else Refused)
  }

  function Delay(attempt: nat): nat {
    if attempt <= 1 then 1 else 2 * Delay(attempt - 1)
  }

  /** The transition after the last attempt; its own failure only replaces the error that is raised. */
  function GiveUp(r: Record, target: State, now: int): (Record, Next) {
    var m := Move(r, target, None, now);
    (if m.Ok? then m.value else r, Raised)
  }

  /**
    The record after an answer to one attempt. A transition that is refused while the answer is a
    success counts as a permanent error; refused while an error is handled, it ends the session.
   */
  function ReplySegment(r: Record, attempt: nat, reply: Reply, now: int): (Record, Next) {
    match reply
    case Placed(orderId) =>
      var m := Move(r, BROKER_ACKNOWLEDGED, Some(orderId), now);
      if m.Ok? then (m.value, Acknowledged) else GiveUp(r, FAILED_TERMINAL, now)
    case Failed(Ambiguous) =>
      var m := Move(r, RECOVERY_PENDING, None, now);
      if m.Ok? then GiveUp(m.value, RECOVERY_PENDING, now) else (r, Raised)
    case Failed(error) =>
      if error == Permanent || attempt >= RETRY_ATTEMPTS then GiveUp(r, FAILED_TERMINAL, now)
      else
        var m := Move(r, SUBMISSION_PENDING, None, now);
        if m.Ok? then (m.value, RetryAfter(Delay(attempt))) else (r, Raised)
  }

  // ---- What the segments guarantee ----

  lemma {:induction false} MoveAllIsSafe(r: Record, targets: seq<State>, now: int)
    requires LegalHistory(r)
    ensures var (r', ok) := MoveAll(r, targets, now);
      LegalHistory(r') && r'.id == r.id && r'.signalId == r.signalId && r'.brokerOrderId == r.brokerOrderId
    decreases |targets|
  {
    if targets != [] {
      var m := Move(r, targets[0], None, now);
      if m.Ok? {
        MoveIsSafe(r, targets[0], None, now);
        MoveAllIsSafe(m.value, targets[1..], now);
      }
    }
  }

  /** The next state is always another one. */
  ghost predicate GoesOn(state: State, targets: seq<State>) {
    && (targets != [] ==> targets[0] != state)
    && forall i | 0 < i < |targets| :: targets[i] != targets[i - 1]
  }

  /** The history gains the targets up to the one that is refused. */
  lemma {:induction false} MoveAllAppends(r: Record, targets: seq<State>, now: int) returns (n: nat)
    requires GoesOn(r.state, targets)
    ensures var (r', ok) := MoveAll(r, targets, now);
      n <= |targets| && (ok <==> n == |targets|) && r'.strategyId == r.strategyId && Gained(r, r', targets[..n], now)
    decreases |targets|
  {
    n := 0;
    if targets != [] && Move(r, targets[0], None, now).Ok? {
      var m := Move(r, targets[0], None, now).value;
      var n' := MoveAllAppends(m, targets[1..], now);
      n := n' + 1;
      assert targets[..n] == [targets[0]] + targets[1..][..n'];
      GainedMore(r, m, MoveAll(r, targets, now).0, targets[0], targets[1..][..n'], now);
    }
  }

  /** The history has grown by these states, all entered now. */
  ghost predicate Gained(r: Record, r': Record, states: seq<State>, now: int) {
    && r.history <= r'.history && StatesOf(r'.history) == StatesOf(r.history) + states
    && forall k | |r.history| <= k < |r'.history| :: r'.history[k].at == now
  }

  lemma GainedMore(r: Record, m: Record, r': Record, state: State, states: seq<State>, now: int)
    requires m.history == r.history + [Event(state, now, NO_META)] && Gained(m, r', states, now)
    ensures Gained(r, r', [state] + states, now)
  {
    assert StatesOf(m.history) == StatesOf(r.history) + [state];
    assert StatesOf(r.history) + [state] + states == StatesOf(r.history) + ([state] + states);
  }

  /**
    The record of an opening: it carries what the signal asked for, and its history is the way that the checks made on
    it allow.
   */
  ghost predicate OpenedBy(r: Record, strategyId: string, signalId: string, meta: Meta, governed: bool, permitted: bool,
                           now: int)
  {
    && r.strategyId == strategyId && r.signalId == signalId && r.Metadata() == meta
    && r.brokerOrderId == "" && r.updatedAt == now
    && (forall k | 0 <= k < |r.history| :: r.history[k].at == now)
    && StatesOf(r.history) == [SIGNAL_RECEIVED]
         + (if governed then [GOVERNANCE_VALIDATED] else []) + (if permitted then [PERMISSION_VALIDATED] else [])
         + (if governed && !permitted then [] else [RISK_APPROVED, SUBMISSION_PENDING])
  }

  lemma RouteIsTaken(first: Record, strategyId: string, signalId: string, meta: Meta, governed: bool, permitted: bool,
                     now: int)
    requires first.strategyId == strategyId && first.signalId == signalId && first.brokerOrderId == ""
    requires first.state == SIGNAL_RECEIVED && first.updatedAt == now
    requires |first.history| == 1 && first.history[0] == Event(SIGNAL_RECEIVED, now, meta)
    ensures OpenedBy(MoveAll(first, Route(governed, permitted), now).0, strategyId, signalId, meta, governed, permitted,
                     now)
  {
    var route := Route(governed, permitted);
    assert StatesOf(first.history) == [SIGNAL_RECEIVED];
    MoveAllIsSafe(first, route, now);
    RouteOutcome(first, governed, permitted, now);
    var n := MoveAllAppends(first, route, now);
    var r := MoveAll(first, route, now).0;
    KeepsFirstEvent(first, r, route[..n], now);
    if governed && !permitted {
      RefusedAfterGovernance(r, route, n);
    } else {
      assert route[..n] == route;
    }
  }

  lemma KeepsFirstEvent(first: Record, r: Record, states: seq<State>, now: int)
    requires |first.history| == 1 && first.history[0].at == now && Gained(first, r, states, now)
    ensures r.Metadata() == first.history[0].meta && forall k | 0 <= k < |r.history| :: r.history[k].at == now
  {
    assert r.history[0] == first.history[0];
  }

  lemma RefusedAfterGovernance(r: Record, route: seq<State>, n: nat)
    requires route == [GOVERNANCE_VALIDATED, RISK_APPROVED, SUBMISSION_PENDING] && n <= 3
    requires LegalHistory(r) && r.state == GOVERNANCE_VALIDATED
    requires StatesOf(r.history) == [SIGNAL_RECEIVED] + route[..n]
    ensures StatesOf(r.history) == [SIGNAL_RECEIVED, GOVERNANCE_VALIDATED]
  {
    assert n == 1;
  }

  /**
    A signal is submitted unless an active record holds its identity or governance came without permission,
    and in that case the opening raises and leaves its record behind. Either record tells what the signal asked for.
   */
  lemma OpeningOutcome(records: map<ExecId, Record>, id: ExecId, strategyId: string, signalId: string, meta: Meta,
                       governed: bool, permitted: bool, now: int)
    requires ValidStore(records) && id !in records
    ensures var (records', o) := OpenSegment(records, id, strategyId, signalId, meta, governed, permitted, now);
      && ValidStore(records')
      && (o == Suppressed <==> exists e | e in records :: records[e].Incomplete() && records[e].signalId == signalId)
      && (o == Suppressed ==> records' == records)
      && (o == Refused <==> o != Suppressed && governed && !permitted)
      && (o != Suppressed ==>
            (id in records' && records' == records[id := records'[id]] && records'[id].id == id
             && OpenedBy(records'[id], strategyId, signalId, meta, governed, permitted, now)))
      && (o == Submitted ==> records'[id].state == SUBMISSION_PENDING)
      && (o == Refused ==> records'[id].state == GOVERNANCE_VALIDATED)
  {
    var first := NewRecord(id, strategyId, signalId, meta, now);
    var (records', o) := OpenSegment(records, id, strategyId, signalId, meta, governed, permitted, now);
    assert StatesOf(first.history) == [SIGNAL_RECEIVED];
    ActiveMeans(records, signalId);
    if o != Suppressed {
      MoveAllIsSafe(first, Route(governed, permitted), now);
      RouteOutcome(first, governed, permitted, now);
      RouteIsTaken(first, strategyId, signalId, meta, governed, permitted, now);
    }
  }

  lemma ActiveMeans(records: map<ExecId, Record>, signalId: string)
    ensures ActiveIds(records, signalId) != {}
      <==> exists e | e in records :: records[e].Incomplete() && records[e].signalId == signalId
  {
    if e :| e in records && records[e].Incomplete() && records[e].signalId == signalId {
      assert e in ActiveIds(records, signalId);
    }
  }

  lemma RouteOutcome(first: Record, governed: bool, permitted: bool, now: int)
    requires first.state == SIGNAL_RECEIVED && first.updatedAt == now
    ensures var (r, ok) := MoveAll(first, Route(governed, permitted), now);
      && r.updatedAt == now
      && (ok <==> !governed || permitted)
      && r.state == if ok then SUBMISSION_PENDING else GOVERNANCE_VALIDATED
  {
    var tail := [RISK_APPROVED, SUBMISSION_PENDING];
    assert tail[1..] == [SUBMISSION_PENDING] && tail[1..][1..] == [];
    var onPermit := [PERMISSION_VALIDATED] + tail;
    var onGovern := [GOVERNANCE_VALIDATED] + tail;
    assert onPermit[1..] == tail && onGovern[1..] == tail;
    assert ([GOVERNANCE_VALIDATED] + onPermit)[1..] == onPermit;
    var route := Route(governed, permitted);
    assert route == if governed && permitted then [GOVERNANCE_VALIDATED] + onPermit
                    else if governed then onGovern else if permitted then onPermit else tail;
    MoveTail(first, now);
    if governed {
      MoveTail(Move(first, GOVERNANCE_VALIDATED, None, now).value, now);
    }
  }

  /** From here the risk approval and the submission go through, unless only governance was recorded. */
  lemma MoveTail(r: Record, now: int)
    requires r.state in {SIGNAL_RECEIVED, GOVERNANCE_VALIDATED} && r.updatedAt == now
    ensures var tail := [RISK_APPROVED, SUBMISSION_PENDING];
      && MoveAll(r, [PERMISSION_VALIDATED] + tail, now).1
      && MoveAll(r, [PERMISSION_VALIDATED] + tail, now).0.state == SUBMISSION_PENDING
      && MoveAll(r, [PERMISSION_VALIDATED] + tail, now).0.updatedAt == now
      && (if r.state == GOVERNANCE_VALIDATED then MoveAll(r, tail, now) == (r, false)
          else MoveAll(r, tail, now).1 && MoveAll(r, tail, now).0.state == SUBMISSION_PENDING
               && MoveAll(r, tail, now).0.updatedAt == now)
  {
    var tail := [RISK_APPROVED, SUBMISSION_PENDING];
    assert tail[1..] == [SUBMISSION_PENDING] && tail[1..][1..] == [];
    assert ([PERMISSION_VALIDATED] + tail)[1..] == tail;
    var p := Move(r, PERMISSION_VALIDATED, None, now).value;
    var q := Move(p, RISK_APPROVED, None, now).value;
    assert MoveAll(q, [SUBMISSION_PENDING], now) == MoveAll(Move(q, SUBMISSION_PENDING, None, now).value, [], now);
    assert MoveAll(p, tail, now) == MoveAll(q, [SUBMISSION_PENDING], now);
    if r.state == SIGNAL_RECEIVED {
      var u := Move(r, RISK_APPROVED, None, now).value;
      assert MoveAll(u, [SUBMISSION_PENDING], now) == MoveAll(Move(u, SUBMISSION_PENDING, None, now).value, [], now);
    }
  }

  /** The record has only gone on: its history is longer and legal, it is the same intent's, and an end stays an end. */
  ghost predicate SafeAfter(r: Record, r': Record) {
    && LegalHistory(r') && r.history <= r'.history && r'.id == r.id && r'.signalId == r.signalId
    && r'.strategyId == r.strategyId && r'.Metadata() == r.Metadata()
    && (!r.Incomplete() ==> r'.state == r.state && r'.history == r.history)
  }

  /** One transition, if it is legal; the record stays as it is otherwise. */
  lemma MoveGoesOn(r: Record, target: State, orderId: Option<string>, now: int)
    requires LegalHistory(r)
    ensures var m := Move(r, target, orderId, now);
      m.Ok? ==>
        SafeAfter(r, m.value) && m.value.brokerOrderId == if orderId.Some? then orderId.value else r.brokerOrderId
  {
    if Move(r, target, orderId, now).Ok? {
      MoveIsSafe(r, target, orderId, now);
    }
  }

  /**
    No answer revives a record or rewrites its history, and a retry means that the record is still waiting for
    submission.
   */
  lemma ReplyIsSafe(r: Record, attempt: nat, reply: Reply, now: int)
    requires LegalHistory(r)
    ensures var (r', next) := ReplySegment(r, attempt, reply, now);
      && SafeAfter(r, r')
      && (next.RetryAfter? ==>
            (reply == Failed(Transient) && attempt < RETRY_ATTEMPTS
             && next.delay == Delay(attempt) && r'.state == SUBMISSION_PENDING && r'.updatedAt == now))
      && (r'.brokerOrderId == r.brokerOrderId || reply == Placed(r'.brokerOrderId))
  {
    match reply
    case Placed(orderId) =>
      MoveGoesOn(r, BROKER_ACKNOWLEDGED, Some(orderId), now);
      GiveUpIsSafe(r, FAILED_TERMINAL, now);
    case Failed(Ambiguous) => AmbiguousIsSafe(r, now);
    case Failed(error) =>
      GiveUpIsSafe(r, FAILED_TERMINAL, now);
      MoveGoesOn(r, SUBMISSION_PENDING, None, now);
  }

  lemma AmbiguousIsSafe(r: Record, now: int)
    requires LegalHistory(r)
    ensures var r' := ReplySegment(r, 1, Failed(Ambiguous), now).0;
      SafeAfter(r, r') && r'.brokerOrderId == r.brokerOrderId
  {
    MoveGoesOn(r, RECOVERY_PENDING, None, now);
    var m := Move(r, RECOVERY_PENDING, None, now);
    if m.Ok? {
      GiveUpIsSafe(m.value, RECOVERY_PENDING, now);
    }
  }

  lemma GiveUpIsSafe(r: Record, target: State, now: int)
    requires LegalHistory(r)
    ensures var r' := GiveUp(r, target, now).0; SafeAfter(r, r') && r'.brokerOrderId == r.brokerOrderId
  {
    MoveGoesOn(r, target, None, now);
  }

  /** The states from which a record may fail. */
  predicate MayFail(s: State) {
    s in {SIGNAL_RECEIVED, GOVERNANCE_VALIDATED, PERMISSION_VALIDATED, RISK_APPROVED, SUBMISSION_PENDING,
          BROKER_ACKNOWLEDGED, RECOVERY_PENDING, FAILED_TERMINAL}
  }

  /**
    What every answer does to a record in any state, one that recovery or the runtime moved while the answer was out
    too: a success acknowledges a record that waits or is in recovery, an ambiguous answer puts one that waits into
    recovery, a transient one keeps it waiting while attempts are left, and everything else fails it if it may fail.
   */
  lemma AnswerIsExact(r: Record, attempt: nat, reply: Reply, now: int)
    ensures var (r', next) := ReplySegment(r, attempt, reply, now);
      match reply
      case Placed(orderId) =>
        if r.state in {SUBMISSION_PENDING, RECOVERY_PENDING, BROKER_ACKNOWLEDGED} then
          next == Acknowledged && r'.state == BROKER_ACKNOWLEDGED && r'.brokerOrderId == orderId
        else
          && next == Raised && r'.brokerOrderId == r.brokerOrderId
          && r'.state == if MayFail(r.state) then FAILED_TERMINAL else r.state
      case Failed(error) =>
        && r'.brokerOrderId == r.brokerOrderId
        && (error == Ambiguous ==>
              && next == Raised
              && r'.state == if r.state in {SUBMISSION_PENDING, PARTIALLY_FILLED} then RECOVERY_PENDING else r.state)
        && (error == Transient && attempt < 3 ==>
              if r.state in {RISK_APPROVED, SUBMISSION_PENDING} then
                next == RetryAfter(Delay(attempt)) && r'.state == SUBMISSION_PENDING
              else
                next == Raised && r' == r)
        && (error == Permanent || (error == Transient && attempt >= 3) ==>
              next == Raised && r'.state == if MayFail(r.state) then FAILED_TERMINAL else r.state)
  {
  }

  // ---- A session that nothing interrupts ----

  /**
    The record and the number of submissions after the broker gives these answers, one to each attempt, at these times.
   */
  function Session(r: Record, replies: seq<Reply>, times: seq<int>, attempt: nat): (Record, nat, Next)
    requires 1 <= attempt <= RETRY_ATTEMPTS == |replies| == |times|
    decreases RETRY_ATTEMPTS - attempt
  {
    var (r', next) := ReplySegment(r, attempt, replies[attempt - 1], times[attempt - 1]);
    if next.RetryAfter?
      && attempt < RETRY_ATTEMPTS then Session(r', replies, times, attempt + 1) else (r', attempt, next)
  }

  /** The answer that decides a session: the first one that is not a transient error, or the last. */
  function Deciding(replies: seq<Reply>, attempt: nat): (d: nat)
    requires 1 <= attempt <= RETRY_ATTEMPTS == |replies|
    ensures attempt <= d <= RETRY_ATTEMPTS
    ensures forall i | attempt - 1 <= i < d - 1 :: replies[i] == Failed(Transient)
    ensures d == RETRY_ATTEMPTS || replies[d - 1] != Failed(Transient)
    decreases RETRY_ATTEMPTS - attempt
  {
    if replies[attempt - 1] == Failed(Transient)
      && attempt < RETRY_ATTEMPTS then Deciding(replies, attempt + 1) else attempt
  }

  /** One answer decides how an undisturbed session ends, and as many orders were submitted as answers were needed. */
  lemma {:induction false} SessionOutcome(r: Record, replies: seq<Reply>, times: seq<int>, attempt: nat)
    requires 1 <= attempt <= RETRY_ATTEMPTS == |replies| == |times|
    requires r.state == SUBMISSION_PENDING
    ensures var (r', submissions, next) := Session(r, replies, times, attempt);
      var d := Deciding(replies, attempt);
      && submissions == d
      && (next.Acknowledged? <==> replies[d - 1].Placed?)
      && r'.state == (match replies[d - 1]
                      case Placed(_) => BROKER_ACKNOWLEDGED
                      case Failed(Ambiguous) => RECOVERY_PENDING
                      case Failed(_) => FAILED_TERMINAL)
      && r'.brokerOrderId == if replies[d - 1].Placed? then replies[d - 1].orderId else r.brokerOrderId
    decreases RETRY_ATTEMPTS - attempt
  {
    var (r', next) := ReplySegment(r, attempt, replies[attempt - 1], times[attempt - 1]);
    if next.RetryAfter? && attempt < RETRY_ATTEMPTS {
      SessionOutcome(r', replies, times, attempt + 1);
    }
  }

  lemma LastUpdateCounts(records: map<ExecId, Record>, id: ExecId, r: Record, r': Record)
    ensures records[id := r][id := r'] == records[id := r']
  {
  }

  class TradeManager {
    const store: ExecutionStateStore

    constructor (store: ExecutionStateStore)
      ensures this.store == store
    {
      this.store := store;
    }

    /** The gate and the record's way to submission, in one piece. */
    method BeginOpen(id: ExecId, strategyId: string, signalId: string, meta: Meta, governed: bool, permitted: bool,
                     now: int)
      returns (o: Opening, existing: Option<ExecId>)
      requires ValidStore(store.records) && id !in store.records
      modifies store
      ensures ValidStore(store.records)
      ensures (store.records, o)
        == OpenSegment(old(store.records), id, strategyId, signalId, meta, governed, permitted, now)
      ensures o == Suppressed <==> existing.Some?
      ensures existing.Some? ==> existing.value in ActiveIds(store.records, signalId)
    {
      existing := store.FindActiveByIdentity(signalId);
      if existing.Some? {
        return Suppressed, existing;
      }
      o := CreateAndRoute(id, strategyId, signalId, meta, governed, permitted, now);
      return o, None;
    }

    /** A new record and its way to submission, once the gate has let the intent through. */
    method CreateAndRoute(id: ExecId, strategyId: string, signalId: string, meta: Meta, governed: bool, permitted: bool,
                          now: int)
      returns (o: Opening)
      requires ValidStore(store.records) && id !in store.records && ActiveIds(store.records, signalId) == {}
      modifies store
      ensures ValidStore(store.records) && o != Suppressed
      ensures (store.records, o)
        == OpenSegment(old(store.records), id, strategyId, signalId, meta, governed, permitted, now)
    {
      store.CreateRecord(id, strategyId, signalId, meta, now);
      ghost var first := NewRecord(id, strategyId, signalId, meta, now);
      var ok := FollowRoute(id, Route(governed, permitted), now);
      LastUpdateCounts(old(store.records), id, first, store.records[id]);
      o := if ok then Submitted else Refused;
    }

    /** One transition after the other, up to the first that is refused. */
    method FollowRoute(id: ExecId, route: seq<State>, now: int) returns (ok: bool)
      requires ValidStore(store.records) && id in store.records
      modifies store
      ensures ValidStore(store.records) && id in store.records
      ensures store.records == old(store.records)[id := store.records[id]]
      ensures (store.records[id], ok) == MoveAll(old(store.records)[id], route, now)
    {
      var i := 0;
      while i < |route|
        invariant 0 <= i <= |route| && ValidStore(store.records) && id in store.records
        invariant store.records == old(store.records)[id := store.records[id]]
        invariant MoveAll(old(store.records)[id], route, now) == MoveAll(store.records[id], route[i..], now)
      {
        assert route[i..][1..] == route[i + 1..];
        var r := store.Transition(id, route[i], None, now);
        if r.Err? {
          return false;
        }
        i := i + 1;
      }
      return true;
    }

    /** What the manager does with the answer to one attempt. */
    method OnReply(id: ExecId, attempt: nat, reply: Reply, now: int) returns (next: Next)
      requires ValidStore(store.records) && id in store.records
      modifies store
      ensures ValidStore(store.records)
      ensures var (r, n) := ReplySegment(old(store.records)[id], attempt, reply, now);
        next == n && store.records == old(store.records)[id := r]
    {
      var target := FAILED_TERMINAL;
      match reply {
        case Placed(orderId) =>
          var r := store.Transition(id, BROKER_ACKNOWLEDGED, Some(orderId), now);
          if r.Ok? {
            return Acknowledged;
          }
        case Failed(error) =>
          if error == Ambiguous {
            var r := store.Transition(id, RECOVERY_PENDING, None, now);
            if r.Err? {
              return Raised;
            }
            target := RECOVERY_PENDING;
          } else if error == Transient && attempt < RETRY_ATTEMPTS {
            var r := store.Transition(id, SUBMISSION_PENDING, None, now);
            return if r.Ok? then RetryAfter(Delay(attempt)) else Raised;
          }
      }
      var _ := store.Transition(id, target, None, now);
      return Raised;
    }

    /** The retry loop when nothing else touches the record while it waits. */
    method PlaceOrderWithRetry(id: ExecId, replies: seq<Reply>, times: seq<int>) returns (submissions: nat, next: Next)
      requires ValidStore(store.records) && id in store.records && |replies| == |times| == RETRY_ATTEMPTS
      modifies store
      ensures ValidStore(store.records)
      ensures var (r, n, last) := Session(old(store.records)[id], replies, times, 1);
        submissions == n && next == last && store.records == old(store.records)[id := r]
    {
      var attempt := 1;
      while true
        invariant 1 <= attempt <= RETRY_ATTEMPTS && ValidStore(store.records) && id in store.records
        invariant store.records == old(store.records)[id := store.records[id]]
        invariant Session(old(store.records)[id], replies, times, 1)
          == Session(store.records[id], replies, times, attempt)
        decreases RETRY_ATTEMPTS - attempt
      {
        next := OnReply(id, attempt, replies[attempt - 1], times[attempt - 1]);
        if !next.RetryAfter? || attempt == RETRY_ATTEMPTS {
          return attempt, next;
        }
        attempt := attempt + 1;
      }
    }

    /** Lets the runtime move a record; an illegal move changes nothing. */
    method MarkExecutionState(id: ExecId, target: State, now: int) returns (ok: bool)
      requires ValidStore(store.records) && id in store.records
      modifies store
      ensures ValidStore(store.records)
      ensures var m := Move(old(store.records)[id], target, None, now);
        ok == m.Ok? && store.records == if m.Ok? then old(store.records)[id := m.value] else old(store.records)
    {
      var r := store.Transition(id, target, None, now);
      ok := r.Ok?;
    }
  }
}
