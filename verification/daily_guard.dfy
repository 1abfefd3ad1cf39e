/**
  The risk guard over the days of a service: ticks that may fail anywhere, journal writes, openings,
  daily resets, saves and crashes. Rows are durable at once, the guard and the snapshot only when they
  are saved, so the guard knows every close exactly as long as no crash comes between the two.
 */
module DailyGuard {
  import Wrappers
  import opened TradeJournal
  import opened Positions
  import opened CloseReconciliation
  import opened DemoRisk

  /**
    What the runner does: one tick, a row for a signal, one more open position, the first tick of a new date,
    writing the state file; and a crash with the restart that loads the file.
   */
  datatype Turn =
    | RunTick(tick: Tick, clock: CircuitBreaking.Clock)
    | Journaled(draft: Draft)
    | Opened
    | NewDay
    | Save
    | Crash

  /** The books, the guard, and how many scores there were at the last reset. */
  datatype Ledger = Ledger(books: Books, risk: Risk, mark: nat)

  /** The ledger of the process, the ledger at the last save, and every close ever written to the journal. */
  datatype Service = Service(live: Ledger, saved: Ledger, closes: seq<Score>)

  function AddedBy(b: Books, t: Tick): seq<Score> {
    Ticked(b.(scores := []), t).0.scores
  }

  /** What a turn that is neither a save nor a crash makes of the ledger. */
  function Lived(l: Ledger, e: Turn): Ledger {
    match e
    case RunTick(t, _) => Ledger(Ticked(l.books, t).0, RecordedAll(l.risk, ResultsOf(AddedBy(l.books, t))), l.mark)
    case Journaled(d) => l.(books := l.books.(rows := Inserted(l.books.rows, d)))
    case Opened => l.(risk := l.risk.(openPositions := l.risk.openPositions + 1))
    case NewDay => l.(risk := AfterReset(l.risk), mark := |l.books.scores|)
    case _ => l
  }

  /** After a restart: the rows as they are, everything else as it was saved. */
  function Restored(x: Service): Ledger {
    x.saved.(books := x.saved.books.(rows := x.live.books.rows))
  }

  function Turned(x: Service, e: Turn): Service {
    match e
    case Save => x.(saved := x.live)
    case Crash => x.(live := Restored(x))
    case RunTick(t, _) => x.(live := Lived(x.live, e), closes := x.closes + AddedBy(x.live.books, t))
    case _ => x.(live := Lived(x.live, e))
  }

  function TurnedAll(x: Service, es: seq<Turn>): Service {
    if es == [] then x else Turned(TurnedAll(x, es[..|es| - 1]), es[|es| - 1])
  }

  const FRESH := Risk(0, 0, 0.0, 0, NotHalted)

  /** The guard without its count of open positions, which openings change too. */
  function Counters(r: Risk): Risk {
    r.(openPositions := 0)
  }

  /** The closes from number `mark` on, as the guard is told about them. */
  function Since(closes: seq<Score>, mark: nat): seq<Result> {
    if mark <= |closes| then ResultsOf(closes[mark..]) else []
  }

  // ---- While the process lives ----

  /** The counters are what the closes of the day make of a fresh guard. */
  ghost predicate LedgerInv(l: Ledger) {
    l.mark <= |l.books.scores| && Counters(l.risk) == Counters(RecordedAll(FRESH, Since(l.books.scores, l.mark)))
  }

  lemma {:induction false} CountersAlone(s: Risk, s': Risk, rs: seq<Result>)
    requires Counters(s) == Counters(s')
    ensures Counters(RecordedAll(s, rs)) == Counters(RecordedAll(s', rs))
  {
    if rs != [] {
      CountersAlone(s, s', rs[..|rs| - 1]);
    }
  }

  lemma SinceGrows(closes: seq<Score>, added: seq<Score>, mark: nat)
    requires mark <= |closes|
    ensures Since(closes + added, mark) == Since(closes, mark) + ResultsOf(added)
  {
    assert (closes + added)[mark..] == closes[mark..] + added;
  }

  lemma TickKeepsLedger(l: Ledger, t: Tick, c: CircuitBreaking.Clock)
    requires LedgerInv(l)
    ensures LedgerInv(Lived(l, RunTick(t, c)))
  {
    var added := AddedBy(l.books, t);
    var before := Since(l.books.scores, l.mark);
    TickIsLocal(l.books, t);
    SinceGrows(l.books.scores, added, l.mark);
    RecordedConcat(FRESH, before, ResultsOf(added));
    CountersAlone(l.risk, RecordedAll(FRESH, before), ResultsOf(added));
  }

  lemma LifeKeepsLedger(l: Ledger, e: Turn)
    requires LedgerInv(l)
    ensures LedgerInv(Lived(l, e))
  {
    match e
    case RunTick(t, c) => TickKeepsLedger(l, t, c);
    case NewDay => assert Since(l.books.scores, |l.books.scores|) == [];
    case _ =>
  }

  /**
    What the counters say is what happened: the closes of the day, their losses, and whether a limit was ever reached.
   */
  ghost predicate TellsTheDay(r: Risk, day: seq<Result>) {
    && r.tradesToday == |day| && r.dailyLoss == TotalLoss(day) && TrailingLosses(day, r.losses)
    && (r.halt != NotHalted <==> BreachedSoFar(day))
  }

  lemma CountersTellTheDay(r: Risk, day: seq<Result>)
    requires Counters(r) == Counters(RecordedAll(FRESH, day))
    ensures TellsTheDay(r, day)
  {
    CountersAreHistory(FRESH, day);
    assert AfterReset(FRESH) == FRESH;
  }

  // ---- Runs with saves and crashes ----

  /**
    Every closed row has been scored, once, and the guard's counters are those of the closes journaled since the reset.
   */
  ghost predicate Whole(x: Service) {
    && Consistent(x.live.books) && x.live.mark <= |x.closes|
    && Counters(x.live.risk) == Counters(RecordedAll(FRESH, Since(x.closes, x.live.mark)))
  }

  /** Rows are only added, and closed ones stay closed. */
  ghost predicate RowsGrow(rows: seq<Row>, rows': seq<Row>) {
    |rows| <= |rows'| && forall k | 0 <= k < |rows| && rows[k].status == CLOSED :: rows'[k].status == CLOSED
  }

  /** A row has been closed since the last save. */
  ghost predicate ClosedSinceSave(x: Service) {
    exists k | 0 <= k < |x.live.books.rows| :: x.live.books.rows[k].status == CLOSED
      && (k < |x.saved.books.rows| ==> x.saved.books.rows[k].status != CLOSED)
  }

  ghost predicate LedgerSound(l: Ledger) {
    Consistent(l.books) && DistinctIds(l.books.last) && LedgerInv(l)
  }

  /** The state of a service that has lost nothing. */
  ghost predicate Sound(x: Service) {
    && LedgerSound(x.live) && LedgerSound(x.saved)
    && x.closes == x.live.books.scores && x.saved.books.scores <= x.live.books.scores
    && RowsGrow(x.saved.books.rows, x.live.books.rows)
  }

  ghost predicate TicksDistinct(es: seq<Turn>) {
    forall i | 0 <= i < |es| && es[i].RunTick? :: DistinctIds(es[i].tick.positions)
  }

  /** No crash comes while a row has been closed since the last save. */
  ghost predicate CrashesAfterSave(x: Service, es: seq<Turn>) {
    forall i | 0 <= i < |es| && es[i].Crash? :: !ClosedSinceSave(TurnedAll(x, es[..i]))
  }

  lemma RowsGrowOn(rows: seq<Row>, rows': seq<Row>, rows'': seq<Row>)
    requires RowsGrow(rows, rows') && RowsGrow(rows', rows'')
    ensures RowsGrow(rows, rows'')
  {
  }

  /** What the rows and the scores do while the process lives. */
  lemma LifeGrows(l: Ledger, e: Turn)
    ensures RowsGrow(l.books.rows, Lived(l, e).books.rows) && l.books.scores <= Lived(l, e).books.scores
  {
    if e.RunTick? {
      ThroughMeansScored(l.books, e.tick);
    }
  }

  lemma LifeKeepsBooks(l: Ledger, e: Turn)
    requires Consistent(l.books) && DistinctIds(l.books.last) && (e.RunTick? ==> DistinctIds(e.tick.positions))
    ensures Consistent(Lived(l, e).books) && DistinctIds(Lived(l, e).books.last)
  {
    match e
    case RunTick(t, _) =>
      DistinctIsUnambiguous(l.books.last, OpenRows(l.books.rows));
      TickKeepsConsistent(l.books, t);
      ThroughMeansScored(l.books, t);
    case Journaled(d) => WriteKeepsConsistent(l.books, d);
    case _ =>
  }

  lemma LifeKeepsSound(x: Service, e: Turn)
    requires Sound(x) && !e.Save? && !e.Crash? && (e.RunTick? ==> DistinctIds(e.tick.positions))
    ensures Sound(Turned(x, e))
  {
    LifeKeepsBooks(x.live, e);
    LifeKeepsLedger(x.live, e);
    LifeGrows(x.live, e);
    RowsGrowOn(x.saved.books.rows, x.live.books.rows, Turned(x, e).live.books.rows);
    if e.RunTick? {
      TickIsLocal(x.live.books, e.tick);
    }
  }

  /** When no row has been closed since the save, nothing has been scored since either. */
  lemma NothingScoredSinceSave(x: Service)
    requires Sound(x) && !ClosedSinceSave(x)
    ensures x.saved.books.scores == x.live.books.scores
  {
    var n := |x.saved.books.scores|;
    if n < |x.live.books.scores| {
      var rowId := x.live.books.scores[n].rowId;
      ClosedMeansScored(x.live.books, rowId);
      ScoreIsNew(x.live.books, n);
      if rowId <= |x.saved.books.rows| {
        ClosedMeansScored(x.saved.books, rowId);
      }
    }
  }

  lemma ScoreIsNew(b: Books, n: nat)
    requires Consistent(b) && n < |b.scores|
    ensures !Scored(b.scores[..n], b.scores[n].rowId)
  {
    forall i | 0 <= i < n ensures b.scores[..n][i].rowId != b.scores[n].rowId {
      assert b.scores[..n][i] == b.scores[i];
    }
  }

  lemma RestoredIsConsistent(x: Service)
    requires Sound(x) && !ClosedSinceSave(x)
    ensures Consistent(Restored(x).books)
  {
    var rows, saved := x.live.books.rows, x.saved.books;
    forall k | 0 <= k < |rows| ensures rows[k].status == CLOSED <==> Scored(saved.scores, k + 1) {
      if k < |saved.rows| {
        ClosedMeansScored(saved, k + 1);
      }
    }
  }

  lemma TurnKeepsSound(x: Service, e: Turn)
    requires Sound(x) && (e.RunTick? ==> DistinctIds(e.tick.positions)) && (e.Crash? ==> !ClosedSinceSave(x))
    ensures Sound(Turned(x, e))
  {
    if e.Crash? {
      NothingScoredSinceSave(x);
      RestoredIsConsistent(x);
    } else if !e.Save? {
      LifeKeepsSound(x, e);
    }
  }

  lemma {:induction false} SoundInEveryRun(x: Service, es: seq<Turn>)
    requires Sound(x) && TicksDistinct(es) && CrashesAfterSave(x, es)
    ensures Sound(TurnedAll(x, es))
  {
    if es != [] {
      var before := es[..|es| - 1];
      forall i | 0 <= i < |before| ensures before[..i] == es[..i] && before[i] == es[i] { }
      SoundInEveryRun(x, before);
      TurnKeepsSound(TurnedAll(x, before), es[|es| - 1]);
    }
  }

  // ---- What a crash loses ----

  /** The row is closed, and neither the process nor its file knows a score for it. */
  ghost predicate Lost(x: Service, rowId: nat) {
    && ValidRows(x.live.books.rows) && 1 <= rowId <= |x.live.books.rows|
    && x.live.books.rows[rowId - 1].status == CLOSED
    && !Scored(x.live.books.scores, rowId) && !Scored(x.saved.books.scores, rowId)
  }

  /** A tick scores rows that were open when it began, and no others. */
  lemma {:induction false} WorkScoresOpen(b: Books, closed: seq<Position>, open: seq<Row>, balance: real, t: Tick,
                                          rowId: nat)
    requires balance > 0.0 && forall r | r in open :: r.id != rowId
    ensures Scored(Work(b, closed, open, balance, t).0.scores, rowId) ==> Scored(b.scores, rowId)
    decreases |closed|
  {
    if closed != [] {
      var p := closed[0];
      var r := MatchTrade(p, open);
      if r.None? {
        WorkScoresOpen(b, closed[1..], open, balance, t, rowId);
      } else if !t.deals(p.id).LookupFailed? {
        var b' := Charged(b, p, r.value, t.deals(p.id), balance);
        ScoredWithOneMore(b.scores, b'.scores[|b.scores|], rowId);
        WorkScoresOpen(b', closed[1..], open, balance, t, rowId);
      }
    }
  }

  lemma ClosedIsNotScoredAgain(b: Books, t: Tick, rowId: nat)
    requires ValidRows(b.rows) && 1 <= rowId <= |b.rows| && b.rows[rowId - 1].status == CLOSED
      && !Scored(b.scores, rowId)
    ensures !Scored(Ticked(b, t).0.scores, rowId)
  {
    var closed, open := ClosedPositions(b.last, t.positions), OpenRows(b.rows);
    if closed != [] && t.balance.Some? && t.balance.value > 0.0 {
      forall r | r in open ensures r.id != rowId {
        OpenRowsAreCurrent(b.rows, r);
      }
      WorkScoresOpen(b, closed, open, t.balance.value, t, rowId);
    }
  }

  lemma LostStaysLost(x: Service, e: Turn, rowId: nat)
    requires Lost(x, rowId)
    ensures Lost(Turned(x, e), rowId)
  {
    LifeGrows(x.live, e);
    if e.RunTick? {
      ThroughMeansScored(x.live.books, e.tick);
      ClosedIsNotScoredAgain(x.live.books, e.tick, rowId);
    }
  }

  /** Whatever happens after the restart, further restarts included, a row lost by a crash is never scored. */
  lemma {:induction false} LostForGood(x: Service, es: seq<Turn>, rowId: nat)
    requires Lost(x, rowId)
    ensures Lost(TurnedAll(x, es), rowId)
  {
    if es != [] {
      LostForGood(x, es[..|es| - 1], rowId);
      LostStaysLost(TurnedAll(x, es[..|es| - 1]), es[|es| - 1], rowId);
    }
  }

  /** A crash after a close and before the save loses that close. */
  lemma CrashLoses(x: Service) returns (rowId: nat)
    requires Sound(x) && ClosedSinceSave(x)
    ensures Lost(Turned(x, Crash), rowId)
  {
    var k :| 0 <= k < |x.live.books.rows| && x.live.books.rows[k].status == CLOSED
      && (k < |x.saved.books.rows| ==> x.saved.books.rows[k].status != CLOSED);
    rowId := k + 1;
    if k < |x.saved.books.rows| {
      ClosedMeansScored(x.saved.books, rowId);
    }
  }

  lemma {:induction false} TurnedConcat(x: Service, es: seq<Turn>, more: seq<Turn>)
    ensures TurnedAll(x, es + more) == TurnedAll(TurnedAll(x, es), more)
    decreases |more|
  {
    if more == [] {
      assert es + more == es;
    } else {
      assert (es + more)[..|es + more| - 1] == es + more[..|more| - 1];
      TurnedConcat(x, es, more[..|more| - 1]);
    }
  }

  /** The first crash that loses something, when there is one. */
  lemma {:induction false} FirstLoss(x: Service, es: seq<Turn>) returns (i: nat)
    requires !CrashesAfterSave(x, es)
    ensures i < |es| && es[i].Crash? && ClosedSinceSave(TurnedAll(x, es[..i])) && CrashesAfterSave(x, es[..i])
    decreases |es|
  {
    var before := es[..|es| - 1];
    forall j | 0 <= j < |before| ensures before[..j] == es[..j] && before[j] == es[j] { }
    if CrashesAfterSave(x, before) {
      i := |es| - 1;
    } else {
      i := FirstLoss(x, before);
    }
  }

  lemma AroundTurn(x: Service, before: seq<Turn>, e: Turn, after: seq<Turn>)
    ensures TurnedAll(x, before + [e] + after) == TurnedAll(Turned(TurnedAll(x, before), e), after)
  {
    TurnedConcat(x, before + [e], after);
    assert (before + [e])[..|before|] == before;
  }

  lemma SplitAround<T>(xs: seq<T>, i: nat)
    requires i < |xs|
    ensures xs[..i] + [xs[i]] + xs[i + 1..] == xs
  {
  }

  lemma LossBreaksTheGuard(x: Service, es: seq<Turn>) returns (rowId: nat)
    requires Sound(x) && TicksDistinct(es) && !CrashesAfterSave(x, es)
    ensures Lost(TurnedAll(x, es), rowId)
  {
    var i := FirstLoss(x, es);
    SoundInEveryRun(x, es[..i]);
    rowId := CrashLoses(TurnedAll(x, es[..i]));
    LostForGood(Turned(TurnedAll(x, es[..i]), Crash), es[i + 1..], rowId);
    AroundTurn(x, es[..i], Crash, es[i + 1..]);
    SplitAround(es, i);
  }

  /**
    Over every run of ticks, failing ones included, journal writes, openings, daily resets, saves and crashes: every
    closed row is scored, once, and the guard's counters are those of the closes journaled since the reset, exactly
    when no crash comes while a row has been closed since the last save.
   */
  lemma GuardFollowsTheBooks(x: Service, es: seq<Turn>)
    requires Sound(x) && TicksDistinct(es)
    ensures Whole(TurnedAll(x, es)) <==> CrashesAfterSave(x, es)
    ensures CrashesAfterSave(x, es) ==>
      TellsTheDay(TurnedAll(x, es).live.risk, Since(TurnedAll(x, es).closes, TurnedAll(x, es).live.mark))
  {
    var x' := TurnedAll(x, es);
    if CrashesAfterSave(x, es) {
      SoundInEveryRun(x, es);
      CountersTellTheDay(x'.live.risk, Since(x'.closes, x'.live.mark));
    } else {
      var rowId := LossBreaksTheGuard(x, es);
      if Consistent(x'.live.books) {
        ClosedMeansScored(x'.live.books, rowId);
      }
    }
  }

  /** A new service starts in order. */
  lemma NewServiceIsSound(rows: seq<Row>)
    requires ValidRows(rows) && forall k | 0 <= k < |rows| :: rows[k].status != CLOSED
    ensures var l := Ledger(Books(rows, [], []), FRESH, 0); Sound(Service(l, l, []))
  {
    assert Since([], 0) == [];
  }

  // ---- A halt that a crash lifts ----

  const LONG := Position("o", "EURUSD", "buy", Wrappers.None, 1.0, -1.0, Wrappers.None)

  const OPENING := NewRow(1, Draft("s", "EURUSD", "BUY", 1.0, 0.25, 1, "o", TradeJournal.Opened))

  lemma LossyTick(b: Books)
    requires b == Books([OPENING], [LONG], [])
    ensures AddedBy(b, CalmTick()) == [Score(1, "EURUSD", "s", LOSS, -1.0)]
    ensures var rows := Ticked(b, CalmTick()).0.rows; |rows| == 1 && rows[0].status == CLOSED
  {
    var t := CalmTick();
    assert b.last[1..] == [] && b.rows[1..] == [] && b.(scores := []) == b;
    assert ClosedPositions([LONG], []) == [LONG] && OpenRows([OPENING]) == [OPENING];
    assert MatchTrade(LONG, [OPENING]) == Wrappers.Some(OPENING);
    var b' := Charged(b, LONG, OPENING, NoDeal, 1.0);
    assert b'.scores == [Score(1, "EURUSD", "s", LOSS, -1.0)];
    assert Work(b, [LONG], [OPENING], 1.0, t) == Work(b', [LONG][1..], [OPENING], 1.0, t);
    assert [LONG][1..] == [];
  }

  lemma OneLossHalts(added: seq<Score>)
    requires added == [Score(1, "EURUSD", "s", LOSS, -1.0)]
    ensures RecordedAll(FRESH, ResultsOf(added)).halt == DAILY_LOSS_LIMIT
  {
    assert ResultsOf(added) == [Result(LOSS, -1.0)];
    assert [Result(LOSS, -1.0)][..0] == [];
  }

  /** A new service with one position open, and the tick that sees it closed at a loss of the whole balance. */
  function OnePosition(): Service {
    var l := Ledger(Books([OPENING], [LONG], []), FRESH, 0);
    Service(l, l, [])
  }

  const LOSS_TICK := RunTick(CalmTick(), CircuitBreaking.Clock(0, 0))

  lemma OnePositionIsSound()
    ensures Sound(OnePosition())
  {
    assert Since([], 0) == [];
  }

  lemma OneTurn(x: Service, e: Turn, f: Turn)
    ensures TurnedAll(x, [e]) == Turned(x, e) && TurnedAll(x, [e, f]) == Turned(Turned(x, e), f)
  {
    assert [e][..0] == [] && [e, f][..1] == [e];
  }

  lemma LossTickHalts() returns (rowId: nat)
    ensures var x := Turned(OnePosition(), LOSS_TICK);
      CheckLimits(x.live.risk) == HaltedVerdict && Lost(Turned(x, Crash), rowId)
  {
    OnePositionIsSound();
    LossyTick(OnePosition().live.books);
    OneLossHalts(AddedBy(OnePosition().live.books, CalmTick()));
    TurnKeepsSound(OnePosition(), LOSS_TICK);
    rowId := CrashLoses(Turned(OnePosition(), LOSS_TICK));
  }

  /**
    A close of the whole balance halts the guard; a crash before the save brings back an untouched one, and the close is
    lost.
   */
  lemma CrashLiftsTheHalt() returns (rowId: nat)
    ensures Sound(OnePosition())
    ensures CheckLimits(TurnedAll(OnePosition(), [LOSS_TICK]).live.risk) == HaltedVerdict
    ensures CheckLimits(TurnedAll(OnePosition(), [LOSS_TICK, Crash]).live.risk) == Approved
    ensures Lost(TurnedAll(OnePosition(), [LOSS_TICK, Crash]), rowId)
  {
    OnePositionIsSound();
    OneTurn(OnePosition(), LOSS_TICK, Crash);
    rowId := LossTickHalts();
  }

  // ---- One position ----

  /** The row is closed exactly when it is scored, for the process and in what was saved. */
  ghost predicate RowKept(x: Service, rowId: nat) {
    var live, saved := x.live.books, x.saved.books;
    && ValidRows(live.rows) && 1 <= rowId <= |live.rows|
    && (live.rows[rowId - 1].status == CLOSED <==> Scored(live.scores, rowId))
    && (rowId <= |saved.rows| && saved.rows[rowId - 1].status == CLOSED <==> Scored(saved.scores, rowId))
    && (Scored(saved.scores, rowId) ==> live.rows[rowId - 1].status == CLOSED)
  }

  /** The position is in the snapshot, here and in what was saved, and the row is its own. */
  ghost predicate Waits(x: Service, p: Position, rowId: nat) {
    && p in x.live.books.last && p in x.saved.books.last
    && BelongsTo(x.live.books, p, rowId) && x.live.books.rows[rowId - 1].status != BLOCKED
  }

  /** Until a tick gets through: failing ticks, writes of other orders, saves, crashes and the rest. */
  ghost predicate Meanwhile(x: Service, es: seq<Turn>, p: Position) {
    forall i | 0 <= i < |es| ::
      match es[i]
      case RunTick(t, _) => Ticked(TurnedAll(x, es[..i]).live.books, t).1 != Through
      case Journaled(d) => d.orderId != p.id
      case _ => true
  }

  /** This row has been closed since the last save. */
  predicate RowClosedSinceSave(x: Service, rowId: nat) {
    && 1 <= rowId <= |x.live.books.rows| && x.live.books.rows[rowId - 1].status == CLOSED
    && !(rowId <= |x.saved.books.rows| && x.saved.books.rows[rowId - 1].status == CLOSED)
  }

  lemma {:induction false} WorkClosesWhatItScores(b: Books, closed: seq<Position>, open: seq<Row>, balance: real,
                                                  t: Tick, rowId: nat)
    requires balance > 0.0 && 1 <= rowId <= |b.rows| && forall r | r in open :: 1 <= r.id <= |b.rows|
    requires b.rows[rowId - 1].status == CLOSED <==> Scored(b.scores, rowId)
    ensures var b' := Work(b, closed, open, balance, t).0;
      |b'.rows| == |b.rows| && (b'.rows[rowId - 1].status == CLOSED <==> Scored(b'.scores, rowId))
    decreases |closed|
  {
    if closed != [] {
      var p := closed[0];
      var r := MatchTrade(p, open);
      if r.None? {
        WorkClosesWhatItScores(b, closed[1..], open, balance, t, rowId);
      } else if !t.deals(p.id).LookupFailed? {
        var b' := Charged(b, p, r.value, t.deals(p.id), balance);
        ScoredWithOneMore(b.scores, b'.scores[|b.scores|], rowId);
        WorkClosesWhatItScores(b', closed[1..], open, balance, t, rowId);
      }
    }
  }

  lemma TickClosesWhatItScores(b: Books, t: Tick, rowId: nat)
    requires ValidRows(b.rows) && 1 <= rowId <= |b.rows|
      && (b.rows[rowId - 1].status == CLOSED <==> Scored(b.scores, rowId))
    ensures var b' := Ticked(b, t).0;
      |b'.rows| == |b.rows| && (b'.rows[rowId - 1].status == CLOSED <==> Scored(b'.scores, rowId))
  {
    var closed, open := ClosedPositions(b.last, t.positions), OpenRows(b.rows);
    if closed != [] && t.balance.Some? && t.balance.value > 0.0 {
      forall r | r in open ensures 1 <= r.id <= |b.rows| {
        OpenRowsAreCurrent(b.rows, r);
      }
      WorkClosesWhatItScores(b, closed, open, t.balance.value, t, rowId);
    }
  }

  lemma TurnKeepsRow(x: Service, e: Turn, rowId: nat)
    requires RowKept(x, rowId) && (e.Crash? ==> !RowClosedSinceSave(x, rowId))
    ensures RowKept(Turned(x, e), rowId)
  {
    if e.RunTick? {
      TickClosesWhatItScores(x.live.books, e.tick, rowId);
      ThroughMeansScored(x.live.books, e.tick);
    }
  }

  lemma TurnKeepsWaiting(x: Service, e: Turn, p: Position, rowId: nat)
    requires Waits(x, p, rowId)
    requires e.RunTick? ==> Ticked(x.live.books, e.tick).1 != Through
    requires e.Journaled? ==> e.draft.orderId != p.id
    ensures Waits(Turned(x, e), p, rowId)
  {
    if e.RunTick? {
      ThroughMeansScored(x.live.books, e.tick);
    }
  }

  /** No crash in the run comes while this row has been closed since the last save. */
  ghost predicate RowSafe(x: Service, es: seq<Turn>, rowId: nat) {
    forall i | 0 <= i < |es| && es[i].Crash? :: !RowClosedSinceSave(TurnedAll(x, es[..i]), rowId)
  }

  lemma {:induction false} RowThroughRun(x: Service, es: seq<Turn>, p: Position, rowId: nat)
    requires RowKept(x, rowId) && Waits(x, p, rowId) && Meanwhile(x, es, p)
    ensures var x' := TurnedAll(x, es);
      Waits(x', p, rowId) && if RowSafe(x, es, rowId) then RowKept(x', rowId) else Lost(x', rowId)
  {
    if es != [] {
      var before, e := es[..|es| - 1], es[|es| - 1];
      MeanwhileBefore(x, es, p);
      RowThroughRun(x, before, p, rowId);
      TurnKeepsWaiting(TurnedAll(x, before), e, p, rowId);
      RowNext(TurnedAll(x, before), e, rowId, RowSafe(x, before, rowId));
      RowSafeAtLast(x, es, rowId);
    }
  }

  lemma MeanwhileBefore(x: Service, es: seq<Turn>, p: Position)
    requires Meanwhile(x, es, p) && es != []
    ensures Meanwhile(x, es[..|es| - 1], p)
  {
    var before := es[..|es| - 1];
    forall i | 0 <= i < |before| ensures before[..i] == es[..i] && before[i] == es[i] { }
  }

  lemma RowSafeAtLast(x: Service, es: seq<Turn>, rowId: nat)
    requires es != []
    ensures var before := es[..|es| - 1];
      RowSafe(x, es, rowId) <==>
        RowSafe(x, before, rowId) && (es[|es| - 1].Crash? ==> !RowClosedSinceSave(TurnedAll(x, before), rowId))
  {
    var before := es[..|es| - 1];
    forall i | 0 <= i < |before| ensures before[..i] == es[..i] && before[i] == es[i] { }
  }

  lemma RowNext(x: Service, e: Turn, rowId: nat, safe: bool)
    requires if safe then RowKept(x, rowId) else Lost(x, rowId)
    ensures if safe && (e.Crash? ==> !RowClosedSinceSave(x, rowId))
      then RowKept(Turned(x, e), rowId) else Lost(Turned(x, e), rowId)
  {
    if !safe {
      LostStaysLost(x, e, rowId);
    } else if e.Crash? && RowClosedSinceSave(x, rowId) {
      assert !Scored(x.saved.books.scores, rowId);
    } else {
      TurnKeepsRow(x, e, rowId);
    }
  }

  lemma ThroughScoresRow(b: Books, t: Tick, p: Position, rowId: nat)
    requires ValidRows(b.rows) && p in b.last && BelongsTo(b, p, rowId) && b.rows[rowId - 1].status != BLOCKED
    requires b.rows[rowId - 1].status == CLOSED <==> Scored(b.scores, rowId)
    requires !IsListed(t.positions, p.id) && Ticked(b, t).1 == Through
    ensures Scored(Ticked(b, t).0.scores, rowId)
  {
    var d := Ticked(b, t).0;
    ThroughMeansScored(b, t);
    if b.rows[rowId - 1].status == OPEN {
      BelongingIsFound(b, p, rowId);
      assert p in ClosedPositions(b.last, t.positions);
      var i :| 0 <= i < |d.scores[|b.scores|..]| && d.scores[|b.scores|..][i].rowId == rowId;
      assert d.scores[|b.scores| + i].rowId == rowId;
    } else {
      var i :| 0 <= i < |b.scores| && b.scores[i].rowId == rowId;
      assert d.scores[i] == b.scores[i];
    }
  }

  /**
    A position of the saved snapshot that vanished has its row scored once a tick gets through, whatever failed and
    crashed before, exactly when no crash came while that row had been closed since the last save.
   */
  lemma VanishedIsScoredExactly(x: Service, es: seq<Turn>, t: Tick, c: CircuitBreaking.Clock, p: Position, rowId: nat)
    requires RowKept(x, rowId) && Waits(x, p, rowId) && Meanwhile(x, es, p)
    requires !IsListed(t.positions, p.id) && Ticked(TurnedAll(x, es).live.books, t).1 == Through
    ensures Scored(Turned(TurnedAll(x, es), RunTick(t, c)).live.books.scores, rowId) <==> RowSafe(x, es, rowId)
  {
    var x' := TurnedAll(x, es);
    RowThroughRun(x, es, p, rowId);
    if RowSafe(x, es, rowId) {
      ThroughScoresRow(x'.live.books, t, p, rowId);
    } else {
      LostStaysLost(x', RunTick(t, c), rowId);
    }
  }

  // ---- A position that was never saved ----

  /** The row is open, and no snapshot has a position with its order id. */
  ghost predicate Forgotten(x: Service, rowId: nat) {
    && ValidRows(x.live.books.rows) && 1 <= rowId <= |x.live.books.rows|
    && var row := x.live.books.rows[rowId - 1];
       && row.status == OPEN && !IsListed(x.live.books.last, row.orderId) && !IsListed(x.saved.books.last, row.orderId)
  }

  lemma TickForgets(b: Books, t: Tick, rowId: nat)
    requires ValidRows(b.rows) && 1 <= rowId <= |b.rows| && !IsListed(b.last, b.rows[rowId - 1].orderId)
    ensures |Ticked(b, t).0.rows| == |b.rows| && Ticked(b, t).0.rows[rowId - 1] == b.rows[rowId - 1]
    ensures ValidRows(Ticked(b, t).0.rows)
  {
    ThroughMeansScored(b, t);
    TickSparesRow(b, t, rowId);
  }

  lemma TurnForgets(x: Service, e: Turn, rowId: nat)
    requires Forgotten(x, rowId)
    requires e.RunTick? ==> !IsListed(e.tick.positions, x.live.books.rows[rowId - 1].orderId)
    ensures Forgotten(Turned(x, e), rowId)
    ensures Turned(x, e).live.books.rows[rowId - 1].orderId == x.live.books.rows[rowId - 1].orderId
  {
    if e.RunTick? {
      TickForgets(x.live.books, e.tick, rowId);
      ThroughMeansScored(x.live.books, e.tick);
    }
  }

  /** A position that no saved snapshot holds and that is closed before the restart leaves its row open for good. */
  lemma {:induction false} UnsavedPositionIsForgotten(x: Service, es: seq<Turn>, rowId: nat)
    requires ValidRows(x.live.books.rows) && 1 <= rowId <= |x.live.books.rows|
      && x.live.books.rows[rowId - 1].status == OPEN
    requires var id := x.live.books.rows[rowId - 1].orderId;
      && !IsListed(x.saved.books.last, id)
      && forall i | 0 <= i < |es| && es[i].RunTick? :: !IsListed(es[i].tick.positions, id)
    ensures var x' := TurnedAll(Turned(x, Crash), es);
      Forgotten(x', rowId) && x'.live.books.rows[rowId - 1].orderId == x.live.books.rows[rowId - 1].orderId
  {
    if es != [] {
      UnsavedPositionIsForgotten(x, es[..|es| - 1], rowId);
      TurnForgets(TurnedAll(Turned(x, Crash), es[..|es| - 1]), es[|es| - 1], rowId);
    }
  }

  /** The row of one order, open and not scored yet, and no other row with its id. */
  ghost predicate OpenRow(x: Service, rowId: nat) {
    var rows := x.live.books.rows;
    && ValidRows(rows) && 1 <= rowId <= |rows| && rows[rowId - 1].status == OPEN && rows[rowId - 1].orderId != ""
    && (forall k | 0 <= k < |rows| && rows[k].orderId == rows[rowId - 1].orderId :: k + 1 == rowId)
    && !Scored(x.saved.books.scores, rowId)
  }

  /**
    A position that is gone when the service restarts has its row scored by the first tick that gets through exactly
    when the saved snapshot holds it.
   */
  lemma RestartScoresSaved(x: Service, t: Tick, rowId: nat)
    requires OpenRow(x, rowId) && Ticked(Restored(x).books, t).1 == Through
    requires !IsListed(t.positions, x.live.books.rows[rowId - 1].orderId)
    ensures Scored(Ticked(Restored(x).books, t).0.scores, rowId)
      <==> exists p | p in x.saved.books.last :: Matches(p, x.live.books.rows[rowId - 1])
  {
    var b, row := Restored(x).books, x.live.books.rows[rowId - 1];
    if p :| p in b.last && Matches(p, row) {
      ThroughScoresRow(b, t, p, rowId);
    } else {
      TickClosesWhatItScores(b, t, rowId);
      TickSparesRow(b, t, rowId);
    }
  }

  lemma TickSparesRow(b: Books, t: Tick, rowId: nat)
    requires ValidRows(b.rows) && 1 <= rowId <= |b.rows|
    requires forall p | p in b.last :: !Matches(p, b.rows[rowId - 1])
    ensures |Ticked(b, t).0.rows| == |b.rows| && Ticked(b, t).0.rows[rowId - 1] == b.rows[rowId - 1]
  {
    var closed, open := ClosedPositions(b.last, t.positions), OpenRows(b.rows);
    if closed != [] && t.balance.Some? && t.balance.value > 0.0 {
      forall q, r | q in closed && r in open && Matches(q, r) ensures r.id != rowId {
        OpenRowsAreCurrent(b.rows, r);
      }
      WorkSparesRow(b, closed, open, t.balance.value, t, rowId);
    }
  }

  // ---- The runner ----

  /** The state files. */
  datatype Disk = Disk(last: seq<Position>, risk: Risk, portfolio: PortfolioManagement.Portfolio)

  /** The objects of the service and the state files stand as the service says. */
  ghost predicate Stands(r: CloseReconciler, disk: Disk, x: Service)
    reads r, r.journal, r.risk
  {
    && r.Valid() && r.View(x.live.books.scores) == x.live.books && r.risk.View() == x.live.risk
    && disk.last == x.saved.books.last && disk.risk == x.saved.risk
  }

  method SaveState(r: CloseReconciler) returns (disk: Disk)
    ensures disk == Disk(r.last, r.risk.View(), r.portfolio.View())
  {
    disk := Disk(r.last, r.risk.View(), r.portfolio.View());
  }

  /** A new process: the state files are loaded, the breaker starts empty, and the journal is as it was. */
  method Restart(r: CloseReconciler, disk: Disk)
    requires r.Valid()
    modifies r`last, r.risk, r.portfolio, r.breaker
    ensures r.Valid() && r.last == disk.last && r.risk.View() == disk.risk && r.portfolio.View() == disk.portfolio
    ensures r.breaker.state == map[]
  {
    r.last := disk.last;
    r.risk.LoadState(disk.risk);
    r.portfolio.LoadState(disk.portfolio);
    r.breaker.state := map[];
  }

  method TakeTurn(r: CloseReconciler, e: Turn, disk: Disk, ghost x: Service) returns (disk': Disk)
    requires Stands(r, disk, x)
    modifies r`last, r.journal, r.risk, r.portfolio, r.breaker
    ensures Stands(r, disk', Turned(x, e))
  {
    disk' := disk;
    match e {
      case RunTick(t, c) =>
        TickIsLocal(x.live.books, t);
        var ending, scores := r.Process(t, c);
        assert scores == AddedBy(x.live.books, t);
      case Journaled(d) =>
        var _ := r.journal.RecordSignal(d);
      case Opened =>
        r.risk.openPositions := r.risk.openPositions + 1;
      case NewDay =>
        r.risk.ResetDaily();
      case Save =>
        disk' := SaveState(r);
      case Crash =>
        Restart(r, disk);
    }
  }

  /**
    The runner's loop with its restarts. As long as no crash comes between a close and the save, the guard is halted
    exactly when the closes journaled since the last reset reached a limit.
   */
  method Serve(r: CloseReconciler, es: seq<Turn>, disk: Disk, ghost x: Service) returns (disk': Disk, ghost x': Service)
    requires Stands(r, disk, x) && Sound(x) && TicksDistinct(es)
    modifies r`last, r.journal, r.risk, r.portfolio, r.breaker
    ensures x' == TurnedAll(x, es) && Stands(r, disk', x')
    ensures Whole(x') <==> CrashesAfterSave(x, es)
    ensures CrashesAfterSave(x, es) ==> (r.risk.halted <==> BreachedSoFar(Since(x'.closes, x'.live.mark)))
  {
    disk', x' := disk, x;
    for i := 0 to |es|
      invariant x' == TurnedAll(x, es[..i]) && Stands(r, disk', x')
    {
      assert es[..i + 1][..i] == es[..i];
      disk' := TakeTurn(r, es[i], disk', x');
      x' := Turned(x', es[i]);
    }
    assert es[..|es|] == es;
    GuardFollowsTheBooks(x, es);
  }
}
