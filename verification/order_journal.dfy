/** The journal over whole runs: closes are matched by order id, so no two rows may carry the same one. */
module OrderJournal {
  import opened TradeJournal
  import opened Positions
  import opened OrderProtocol

  /** The runtime writes a row for an order that has one already, its own or one that recovery wrote. */
  ghost predicate Repeats(s: System, a: Action) {
    a.Journal? && a.draft.orderId in OrderIds(s.rows)
  }

  lemma ClosingKeepsUnique(rows: seq<Row>, id: nat, c: Close)
    requires OrderIdsUnique(rows)
    ensures OrderIdsUnique(Updated(rows, id, c))
  {
    var rows' := Updated(rows, id, c);
    forall k | 0 <= k < |rows| ensures rows'[k].orderId == rows[k].orderId { }
  }

  lemma RecoveryKeepsUnique(s: System, positions: seq<Position>, gate: int, s': System)
    requires StoreInv(s) && OrderIdsUnique(s.rows) && Recovers(s, positions, gate, s')
    ensures OrderIdsUnique(s'.rows)
  {
    RecoveryIsSafe(s, positions, gate, s');
  }

  lemma StepOnJournal(s: System, a: Action, s': System)
    requires StoreInv(s) && OrderIdsUnique(s.rows) && Step(s, a, s')
    ensures OrderIdsUnique(s'.rows) <==> !Repeats(s, a)
  {
    match a
    case Recover(positions, gate) => RecoveryKeepsUnique(s, positions, gate, s');
    case Journal(draft) => InsertedOrderIds(s.rows, draft);
    case CloseRow(rowId, close) => ClosingKeepsUnique(s.rows, rowId, close);
    case _ => assert s'.rows == s.rows;
  }

  lemma {:induction false} UniqueUpTo(ss: seq<System>, acts: seq<Action>, i: nat)
    requires IsRun(ss, acts) && i < |ss| && forall k | 0 <= k < i :: !Repeats(ss[k], acts[k])
    ensures OrderIdsUnique(ss[i].rows)
  {
    if i > 0 {
      UniqueUpTo(ss, acts, i - 1);
      OneActiveRecordInEveryRun(ss, acts, i - 1);
      assert StepAt(ss, acts, i - 1);
      StepOnJournal(ss[i - 1], acts[i - 1], ss[i]);
    }
  }

  /**
    Whatever else happens in a run, recovery passes and crashes included, the order ids of the journal stay
    unique exactly as long as the runtime never writes a row for an order that is journaled already.
   */
  lemma JournalStaysUnique(ss: seq<System>, acts: seq<Action>)
    requires IsRun(ss, acts)
    ensures (forall i | 0 <= i < |ss| :: OrderIdsUnique(ss[i].rows))
      <==> (forall i | 0 <= i < |acts| :: !Repeats(ss[i], acts[i]))
  {
    if forall i | 0 <= i < |acts| :: !Repeats(ss[i], acts[i]) {
      forall i | 0 <= i < |ss| ensures OrderIdsUnique(ss[i].rows) {
        UniqueUpTo(ss, acts, i);
      }
    }
    if forall i | 0 <= i < |ss| :: OrderIdsUnique(ss[i].rows) {
      forall i | 0 <= i < |acts| ensures !Repeats(ss[i], acts[i]) {
        OneActiveRecordInEveryRun(ss, acts, i);
        assert StepAt(ss, acts, i) && OrderIdsUnique(ss[i].rows) && OrderIdsUnique(ss[i + 1].rows);
        StepOnJournal(ss[i], acts[i], ss[i + 1]);
      }
    }
  }
}
