/**
  The lifecycle control plane: committing a permitted stage transition with its decision, its log
  entry and its outbox event, under optimistic locking. Stage names and the transitions between
  them belong to the lifecycle manager, which is a parameter here.
 */
module ControlPlane {
  import opened Wrappers

  type Uuid = string

  /** Normalizing a stage may fail, as may the check of a transition. */
  datatype Lifecycle = Lifecycle(normalize: string -> Option<string>, permits: (string, string) -> bool)

  datatype Command = Command(
    slug: string, version: Uuid, fromStage: string, toStage: string, expectedRevision: int,
    actor: string, reason: string, policyVersion: string, evidence: seq<Uuid>)

  datatype StageState = StageState(stage: string, version: Option<Uuid>, revision: int, updatedBy: string)

  datatype Binding = Binding(strategy: Uuid, version: Uuid, stage: string, status: string, trust: string,
                             invalidated: bool)

  datatype Decision = Decision(
    id: Uuid, strategy: Uuid, version: Uuid, fromStage: string, toStage: string, actor: string, reason: string,
    evidence: seq<Uuid>, policyVersion: string)

  datatype Transition = Transition(
    id: Uuid, strategy: Uuid, version: Uuid, decision: Uuid, fromStage: string, toStage: string,
    fromRevision: int, toRevision: int, actor: string, reason: string)

  datatype Outbox = Outbox(
    strategy: Uuid, decision: Uuid, fromStage: string, toStage: string, fromRevision: int, toRevision: int,
    actor: string)

  datatype Database = Database(
    strategies: map<string, Uuid>, states: map<Uuid, StageState>, bindings: map<Uuid, Binding>,
    decisions: seq<Decision>, transitions: seq<Transition>, outbox: seq<Outbox>)

  datatype Error =
    | MissingFields | UnknownStage | IllegalTransition | UnknownStrategy | MissingState
    | StaleState | VersionChanged | EvidenceMissing | EvidenceNotQualifying

  datatype Committed = Committed(decision: Uuid, transition: Uuid, strategy: Uuid, fromRevision: int, toRevision: int)

  const NO_EVIDENCE_SOURCES: set<string> := {"DRAFT", "REFINEMENT", "REVALIDATION"}

  const WHITESPACE: set<char> := {' ', '\t', '\n', '\r', '\U{0B}', '\U{0C}', '\U{1C}', '\U{1D}', '\U{1E}', '\U{1F}',
                                  '\U{85}', '\U{A0}'}

  predicate Blank(s: string) {
    forall c | c in s :: c in WHITESPACE
  }

  /** Evidence that counts for this strategy, version and stage at this moment. */
  predicate Qualifies(b: Binding, strategy: Uuid, version: Uuid, stage: string) {
    b.strategy == strategy && b.version == version && b.stage == stage
    && b.status == "active" && b.trust == "QUALIFYING_REAL" && !b.invalidated
  }

  predicate AllQualify(db: Database, ids: seq<Uuid>, strategy: Uuid, version: Uuid, stage: string) {
    forall id | id in ids :: id in db.bindings && Qualifies(db.bindings[id], strategy, version, stage)
  }

  /** Why a command is refused; none when it may be committed. */
  function Refusal(lc: Lifecycle, db: Database, c: Command): Option<Error> {
    if Blank(c.actor) || Blank(c.reason) || Blank(c.policyVersion) then Some(MissingFields)
    else
      var source, target := lc.normalize(c.fromStage), lc.normalize(c.toStage);
      if source.None? || target.None? then Some(UnknownStage)
      else if !lc.permits(source.value, target.value) then Some(IllegalTransition)
      else if c.slug !in db.strategies then Some(UnknownStrategy)
      else
        var sid := db.strategies[c.slug];
        if sid !in db.states then Some(MissingState)
        else
          var state := db.states[sid];
          if state.revision != c.expectedRevision || state.stage != source.value then Some(StaleState)
          else if state.version != Some(c.version) then Some(VersionChanged)
          else if source.value in NO_EVIDENCE_SOURCES then None
          else if c.evidence == [] then Some(EvidenceMissing)
          else if !AllQualify(db, c.evidence, sid, c.version, source.value) then Some(EvidenceNotQualifying)
          else None
  }

  /** The database after a command; a refused one leaves it alone. The ids are the fresh keys of the new rows. */
  function Commit(lc: Lifecycle, db: Database, c: Command, decision: Uuid, transition: Uuid):
    (Database, Result<Committed, Error>)
  {
    var refusal := Refusal(lc, db, c);
    if refusal.Some? then (db, Err(refusal.value))
    else
      var sid := db.strategies[c.slug];
      var state := db.states[sid];
      var source, target := lc.normalize(c.fromStage).value, lc.normalize(c.toStage).value;
      var next := state.revision + 1;
      (Database(
         db.strategies,
         db.states[sid := StageState(target, state.version, next, c.actor)],
         db.bindings,
         db.decisions + [Decision(decision, sid, c.version, source, target, c.actor, c.reason, c.evidence,
                                  c.policyVersion)],
         db.transitions + [Transition(transition, sid, c.version, decision, source, target, state.revision, next,
                                      c.actor, c.reason)],
         db.outbox + [Outbox(sid, decision, source, target, c.expectedRevision, next, c.actor)]),
       Ok(Committed(decision, transition, sid, c.expectedRevision, next)))
  }

  // ---- Runs ----

  /** Besides commands, strategies are registered, versions change, and evidence is bound or invalidated. */
  datatype Event =
    | Submit(command: Command, decision: Uuid, transition: Uuid)
    | Register(slug: string, strategy: Uuid, state: StageState)
    | ChangeVersion(strategy: Uuid, version: Option<Uuid>)
    | Bind(id: Uuid, binding: Binding)

  /** Keys of new rows are new. */
  ghost predicate Fresh(db: Database, e: Event) {
    match e
    case Submit(_, decision, _) => forall i | 0 <= i < |db.decisions| :: db.decisions[i].id != decision
    case _ => true
  }

  function Handled(lc: Lifecycle, db: Database, e: Event): Database {
    match e
    case Submit(c, decision, transition) => Commit(lc, db, c, decision, transition).0
    case Register(slug, sid, state) =>
      if slug in db.strategies || sid in db.states || sid in db.strategies.Values then db
      else db.(strategies := db.strategies[slug := sid], states := db.states[sid := state])
    case ChangeVersion(sid, version) =>
      if sid in db.states then db.(states := db.states[sid := db.states[sid].(version := version)]) else db
    case Bind(id, b) => db.(bindings := db.bindings[id := b])
  }

  const EMPTY := Database(map[], map[], map[], [], [], [])

  function After(lc: Lifecycle, es: seq<Event>): Database {
    if es == [] then EMPTY else Handled(lc, After(lc, es[..|es| - 1]), es[|es| - 1])
  }

  ghost predicate IsRun(lc: Lifecycle, es: seq<Event>) {
    forall i | 0 <= i < |es| :: Fresh(After(lc, es[..i]), es[i])
  }

  // ---- The chain of each strategy ----

  /** The latest transition of a strategy in the log. */
  function LatestOf(ts: seq<Transition>, sid: Uuid): (t: Option<Transition>)
    ensures t.None? <==> forall i | 0 <= i < |ts| :: ts[i].strategy != sid
    ensures t.Some? ==> t.value in ts && t.value.strategy == sid
  {
    if ts == [] then None
    else if ts[|ts| - 1].strategy == sid then Some(ts[|ts| - 1])
    else LatestOf(ts[..|ts| - 1], sid)
  }

  /** Each entry of the log starts where the previous one of its strategy ended, one revision on. */
  ghost predicate Chained(ts: seq<Transition>, i: nat)
    requires i < |ts|
  {
    var t, before := ts[i], LatestOf(ts[..i], ts[i].strategy);
    && t.toRevision == t.fromRevision + 1
    && (before.Some? ==> t.fromStage == before.value.toStage && t.fromRevision == before.value.toRevision)
  }

  /** The stage state is the end of the chain. */
  ghost predicate AtEnd(db: Database, sid: Uuid)
    requires sid in db.states
  {
    var last := LatestOf(db.transitions, sid);
    last.Some? ==> db.states[sid].stage == last.value.toStage && db.states[sid].revision == last.value.toRevision
  }

  /** The i-th decision, transition and outbox event tell of the same commit. */
  ghost predicate Corresponds(d: Decision, t: Transition, o: Outbox) {
    && t.decision == d.id == o.decision
    && t.strategy == d.strategy == o.strategy && t.version == d.version
    && t.fromStage == d.fromStage == o.fromStage && t.toStage == d.toStage == o.toStage
    && t.fromRevision == o.fromRevision && t.toRevision == o.toRevision
    && t.actor == d.actor == o.actor && t.reason == d.reason
  }

  ghost predicate LogInv(db: Database) {
    && |db.decisions| == |db.transitions| == |db.outbox|
    && (forall i | 0 <= i < |db.decisions| :: Corresponds(db.decisions[i], db.transitions[i], db.outbox[i]))
    && (forall i, j | 0 <= i < j < |db.decisions| :: db.decisions[i].id != db.decisions[j].id)
  }

  ghost predicate ChainInv(db: Database) {
    && (forall i | 0 <= i < |db.transitions| :: db.transitions[i].strategy in db.states && Chained(db.transitions, i))
    && (forall sid | sid in db.states :: AtEnd(db, sid))
  }

  lemma ChainedBefore(ts: seq<Transition>, t: Transition, i: nat)
    requires i < |ts|
    ensures Chained(ts + [t], i) <==> Chained(ts, i)
  {
    assert (ts + [t])[..i] == ts[..i];
  }

  lemma LatestAppended(ts: seq<Transition>, t: Transition, sid: Uuid)
    ensures LatestOf(ts + [t], sid) == if t.strategy == sid then Some(t) else LatestOf(ts, sid)
  {
    assert (ts + [t])[..|ts|] == ts;
  }

  /** A strategy's chain goes on when the new entry starts where its stage state stood. */
  lemma ChainGoesOn(db: Database, t: Transition, db': Database)
    requires ChainInv(db) && t.strategy in db.states
    requires var state := db.states[t.strategy]; t.fromStage == state.stage && t.fromRevision == state.revision
    requires t.toRevision == t.fromRevision + 1 && db'.transitions == db.transitions + [t]
    requires db'.states.Keys == db.states.Keys
    requires forall s | s in db.states && s != t.strategy :: db'.states[s] == db.states[s]
    requires var state := db'.states[t.strategy]; state.stage == t.toStage && state.revision == t.toRevision
    ensures ChainInv(db')
  {
    var n := |db.transitions|;
    forall i | 0 <= i < |db'.transitions|
      ensures db'.transitions[i].strategy in db'.states && Chained(db'.transitions, i)
    {
      if i < n {
        assert Chained(db.transitions, i);
        ChainedBefore(db.transitions, t, i);
      } else {
        assert db'.transitions[..n] == db.transitions;
        assert AtEnd(db, t.strategy);
      }
    }
    forall s | s in db'.states ensures AtEnd(db', s) {
      assert AtEnd(db, s);
      LatestAppended(db.transitions, t, s);
    }
  }

  lemma CommitKeepsChain(lc: Lifecycle, db: Database, c: Command, decision: Uuid, transition: Uuid)
    requires ChainInv(db)
    ensures ChainInv(Commit(lc, db, c, decision, transition).0)
  {
    var (db', r) := Commit(lc, db, c, decision, transition);
    if r.Ok? {
      ChainGoesOn(db, db'.transitions[|db.transitions|], db');
    }
  }

  lemma CommitKeepsLog(lc: Lifecycle, db: Database, c: Command, decision: Uuid, transition: Uuid)
    requires LogInv(db) && forall i | 0 <= i < |db.decisions| :: db.decisions[i].id != decision
    ensures LogInv(Commit(lc, db, c, decision, transition).0)
  {
  }

  lemma EventKeepsChain(lc: Lifecycle, db: Database, e: Event)
    requires ChainInv(db) && !e.Submit?
    ensures ChainInv(Handled(lc, db, e))
  {
    var db' := Handled(lc, db, e);
    forall i | 0 <= i < |db'.transitions|
      ensures db'.transitions[i].strategy in db'.states && Chained(db'.transitions, i)
    {
      assert Chained(db.transitions, i);
    }
    forall s | s in db'.states ensures AtEnd(db', s) {
      if s in db.states {
        assert AtEnd(db, s);
      }
    }
  }

  /**
    In every run each strategy's transitions form a gap-free chain that ends in its stage state, and decisions,
    transitions and outbox events correspond one to one.
   */
  lemma {:induction false} RunsKeepChainAndLog(lc: Lifecycle, es: seq<Event>)
    requires IsRun(lc, es)
    ensures ChainInv(After(lc, es)) && LogInv(After(lc, es))
  {
    if es != [] {
      var before, e := es[..|es| - 1], es[|es| - 1];
      forall i | 0 <= i < |before| ensures before[..i] == es[..i] && before[i] == es[i] { }
      assert Fresh(After(lc, es[..|before|]), e);
      RunsKeepChainAndLog(lc, before);
      var db := After(lc, before);
      if e.Submit? {
        CommitKeepsChain(lc, db, e.command, e.decision, e.transition);
        CommitKeepsLog(lc, db, e.command, e.decision, e.transition);
      } else {
        EventKeepsChain(lc, db, e);
      }
    }
  }

  /** Along the chain of one strategy the revisions only go up. */
  lemma {:induction false} RevisionsIncrease(db: Database, i: nat, j: nat)
    requires ChainInv(db) && i < j < |db.transitions| && db.transitions[i].strategy == db.transitions[j].strategy
    ensures db.transitions[i].fromRevision < db.transitions[i].toRevision <= db.transitions[j].fromRevision
  {
    var ts := db.transitions;
    assert Chained(ts, i) && Chained(ts, j);
    assert ts[..j][i] == ts[i];
    var k := LatestIndex(ts[..j], ts[j].strategy, i);
    if k > i {
      assert Chained(ts, k);
      RevisionsIncrease(db, i, k);
    }
  }

  lemma {:induction false} LatestIndex(ts: seq<Transition>, sid: Uuid, i: nat) returns (k: nat)
    requires i < |ts| && ts[i].strategy == sid
    ensures i <= k < |ts| && ts[k].strategy == sid && LatestOf(ts, sid) == Some(ts[k])
  {
    k := |ts| - 1;
    if ts[k].strategy != sid {
      k := LatestIndex(ts[..k], sid, i);
    }
  }

  /** Of all commands evaluated at one revision of a strategy at most one is ever committed. */
  lemma OneCommitPerRevision(lc: Lifecycle, es: seq<Event>, i: nat, j: nat)
    requires IsRun(lc, es)
    requires var ts := After(lc, es).transitions;
      i < |ts| && j < |ts| && ts[i].strategy == ts[j].strategy && ts[i].fromRevision == ts[j].fromRevision
    ensures i == j
  {
    RunsKeepChainAndLog(lc, es);
    var db := After(lc, es);
    if i < j {
      RevisionsIncrease(db, i, j);
    } else if j < i {
      RevisionsIncrease(db, j, i);
    }
  }

  /**
    A second command with the same expectation fails, however much else happened in between, unless its strategy is
    another one.
   */
  lemma StaleCommandIsRefused(lc: Lifecycle, es: seq<Event>, more: seq<Event>, c: Command, d: Command, decision: Uuid,
                              transition: Uuid)
    requires IsRun(lc, es + [Submit(c, decision, transition)] + more)
    requires Commit(lc, After(lc, es), c, decision, transition).1.Ok?
    requires d.slug == c.slug && d.expectedRevision == c.expectedRevision
    ensures Refusal(lc, After(lc, es + [Submit(c, decision, transition)] + more), d).Some?
  {
    var first := es + [Submit(c, decision, transition)];
    assert first[..|es|] == es && first[|es|] == Submit(c, decision, transition);
    var sid := After(lc, es).strategies[c.slug];
    RevisionStaysAbove(lc, first, more, c.slug, sid, c.expectedRevision + 1);
  }

  lemma {:induction false} RevisionStaysAbove(lc: Lifecycle, es: seq<Event>, more: seq<Event>, slug: string, sid: Uuid,
                                              revision: int)
    requires slug in After(lc, es).strategies && After(lc, es).strategies[slug] == sid
    requires sid in After(lc, es).states && After(lc, es).states[sid].revision >= revision
    ensures var db := After(lc, es + more);
      && slug in db.strategies && db.strategies[slug] == sid
      && sid in db.states && db.states[sid].revision >= revision
    decreases |more|
  {
    if more == [] {
      assert es + more == es;
    } else {
      RevisionStaysAbove(lc, es, more[..|more| - 1], slug, sid, revision);
      assert (es + more)[..|es + more| - 1] == es + more[..|more| - 1];
    }
  }

  /** Something else than whitespace is in it. */
  ghost predicate Filled(s: string) {
    exists i | 0 <= i < |s| :: !SpaceLike(s[i] as int)
  }

  predicate SpaceLike(code: int) {
    9 <= code <= 13 || 28 <= code <= 32 || code == 133 || code == 160
  }

  lemma WhitespaceCodes(c: char)
    ensures c in WHITESPACE <==> SpaceLike(c as int)
  {
    if SpaceLike(c as int) {
      assert c == c as int as char;
    }
  }

  /** Some evidence was given, and all of it is active, real, not invalidated, and for this version in this stage. */
  ghost predicate Evidenced(bindings: map<Uuid, Binding>, ids: seq<Uuid>, strategy: Uuid, version: Uuid,
                            stage: string)
  {
    && |ids| > 0
    && forall i | 0 <= i < |ids| ::
      && ids[i] in bindings
      && bindings[ids[i]] == Binding(strategy, version, stage, "active", "QUALIFYING_REAL", false)
  }

  /**
    The command may be committed: its fields are filled, the lifecycle knows both stages and permits the move, the
    strategy is where the command expects it to be, and the evidence suffices where the stage needs any.
   */
  ghost predicate Committable(lc: Lifecycle, db: Database, c: Command) {
    && Filled(c.actor) && Filled(c.reason) && Filled(c.policyVersion)
    && lc.normalize(c.fromStage).Some? && lc.normalize(c.toStage).Some?
    && lc.permits(lc.normalize(c.fromStage).value, lc.normalize(c.toStage).value)
    && c.slug in db.strategies && db.strategies[c.slug] in db.states
    && var strategy := db.strategies[c.slug];
       && Some(db.states[strategy].stage) == lc.normalize(c.fromStage)
       && db.states[strategy].revision == c.expectedRevision && db.states[strategy].version == Some(c.version)
       && (db.states[strategy].stage in {"DRAFT", "REFINEMENT", "REVALIDATION"}
           || Evidenced(db.bindings, c.evidence, strategy, c.version, db.states[strategy].stage))
  }

  lemma FilledIsNotBlank(s: string)
    ensures Filled(s) <==> !Blank(s)
  {
    if Filled(s) {
      var i :| 0 <= i < |s| && !SpaceLike(s[i] as int);
      WhitespaceCodes(s[i]);
      assert s[i] in s;
    }
    if !Blank(s) {
      var c :| c in s && c !in WHITESPACE;
      WhitespaceCodes(c);
      var i :| 0 <= i < |s| && s[i] == c;
    }
  }

  lemma EvidencedMeans(db: Database, ids: seq<Uuid>, strategy: Uuid, version: Uuid, stage: string)
    ensures Evidenced(db.bindings, ids, strategy, version, stage)
      <==> ids != [] && AllQualify(db, ids, strategy, version, stage)
  {
    if ids != [] && AllQualify(db, ids, strategy, version, stage) {
      forall i | 0 <= i < |ids|
        ensures ids[i] in db.bindings
        ensures db.bindings[ids[i]] == Binding(strategy, version, stage, "active", "QUALIFYING_REAL", false)
      {
        assert ids[i] in ids;
      }
    }
  }

  /** A command is committed exactly if it may be; there is no other reason to refuse one. */
  lemma CommitsExactly(lc: Lifecycle, db: Database, c: Command, decision: Uuid, transition: Uuid)
    ensures Commit(lc, db, c, decision, transition).1.Ok? <==> Committable(lc, db, c)
  {
    FilledIsNotBlank(c.actor);
    FilledIsNotBlank(c.reason);
    FilledIsNotBlank(c.policyVersion);
    if c.slug in db.strategies && lc.normalize(c.fromStage).Some? {
      EvidencedMeans(db, c.evidence, db.strategies[c.slug], c.version, lc.normalize(c.fromStage).value);
    }
  }

  /** The error names what is wrong with the command. */
  lemma RefusalTells(lc: Lifecycle, db: Database, c: Command)
    requires !Committable(lc, db, c)
    ensures Refusal(lc, db, c).Some?
    ensures
      match Refusal(lc, db, c).value
      case MissingFields => !Filled(c.actor) || !Filled(c.reason) || !Filled(c.policyVersion)
      case UnknownStage => lc.normalize(c.fromStage).None? || lc.normalize(c.toStage).None?
      case IllegalTransition =>
        && lc.normalize(c.fromStage).Some? && lc.normalize(c.toStage).Some?
        && !lc.permits(lc.normalize(c.fromStage).value, lc.normalize(c.toStage).value)
      case UnknownStrategy => c.slug !in db.strategies
      case MissingState => c.slug in db.strategies && db.strategies[c.slug] !in db.states
      case StaleState =>
        && c.slug in db.strategies && db.strategies[c.slug] in db.states
        && var state := db.states[db.strategies[c.slug]];
           state.revision != c.expectedRevision || Some(state.stage) != lc.normalize(c.fromStage)
      case VersionChanged =>
        && c.slug in db.strategies && db.strategies[c.slug] in db.states
        && var state := db.states[db.strategies[c.slug]];
           && state.revision == c.expectedRevision && Some(state.stage) == lc.normalize(c.fromStage)
           && state.version != Some(c.version)
      case EvidenceMissing => c.evidence == []
      case EvidenceNotQualifying =>
        && c.slug in db.strategies && db.strategies[c.slug] in db.states && c.evidence != []
        && !Evidenced(db.bindings, c.evidence, db.strategies[c.slug], c.version,
                      db.states[db.strategies[c.slug]].stage)
  {
    CommitsExactly(lc, db, c, "", "");
    FilledIsNotBlank(c.actor);
    FilledIsNotBlank(c.reason);
    FilledIsNotBlank(c.policyVersion);
    if c.slug in db.strategies && db.strategies[c.slug] in db.states {
      EvidencedMeans(db, c.evidence, db.strategies[c.slug], c.version, db.states[db.strategies[c.slug]].stage);
    }
  }

  /**
    An entry of the log is right when it tells exactly of a command that could be committed in the state `db` it was
    written in: between the stages that the command names, for the version and the revision that were current, with the
    command's actor, reason, policy and evidence.
   */
  ghost predicate RightWhenWritten(lc: Lifecycle, db: Database, c: Command, d: Decision, t: Transition, o: Outbox) {
    && Committable(lc, db, c)
    && lc.permits(t.fromStage, t.toStage)
    && Some(t.fromStage) == lc.normalize(c.fromStage) && Some(t.toStage) == lc.normalize(c.toStage)
    && c.slug in db.strategies && t.strategy == db.strategies[c.slug] && t.version == c.version
    && t.fromRevision == c.expectedRevision && t.toRevision == c.expectedRevision + 1
    && t.actor == c.actor && t.reason == c.reason
    && d == Decision(t.decision, t.strategy, c.version, t.fromStage, t.toStage, c.actor, c.reason, c.evidence,
                     c.policyVersion)
    && o == Outbox(t.strategy, t.decision, t.fromStage, t.toStage, t.fromRevision, t.toRevision, c.actor)
  }

  /** A committed command leaves one entry, which is right, and moves its strategy only. */
  lemma CommittedIsRight(lc: Lifecycle, db: Database, c: Command, decision: Uuid, transition: Uuid)
    requires Commit(lc, db, c, decision, transition).1.Ok?
    ensures var db' := Commit(lc, db, c, decision, transition).0;
      && |db'.decisions| == |db.decisions| + 1 && |db'.transitions| == |db.transitions| + 1
      && |db'.outbox| == |db.outbox| + 1
      && db'.transitions[|db.transitions|].decision == decision && db'.transitions[|db.transitions|].id == transition
      && RightWhenWritten(lc, db, c, db'.decisions[|db.decisions|], db'.transitions[|db.transitions|],
                          db'.outbox[|db.outbox|])
    ensures var db' := Commit(lc, db, c, decision, transition).0;
      && db'.strategies == db.strategies && db'.bindings == db.bindings
      && c.slug in db.strategies && db.strategies[c.slug] in db.states && lc.normalize(c.toStage).Some?
      && db'.states == db.states[db.strategies[c.slug] :=
           StageState(lc.normalize(c.toStage).value, Some(c.version), c.expectedRevision + 1, c.actor)]
    ensures c.slug in db.strategies && Commit(lc, db, c, decision, transition).1
      == Ok(Committed(decision, transition, db.strategies[c.slug], c.expectedRevision, c.expectedRevision + 1))
  {
    CommitsExactly(lc, db, c, decision, transition);
  }

  /** One event adds at most one entry to the log: a command that may be committed adds one, and that one is right. */
  lemma LogGoesOn(lc: Lifecycle, db: Database, e: Event)
    requires |db.decisions| == |db.transitions| == |db.outbox|
    ensures var db', n := Handled(lc, db, e), |db.transitions|;
      && db.transitions <= db'.transitions && db.decisions <= db'.decisions && db.outbox <= db'.outbox
      && |db'.decisions| == |db'.transitions| == |db'.outbox|
      && |db'.transitions| == n + (if e.Submit? && Committable(lc, db, e.command) then 1 else 0)
      && (|db'.transitions| > n ==>
            RightWhenWritten(lc, db, e.command, db'.decisions[n], db'.transitions[n], db'.outbox[n]))
  {
    if e.Submit? {
      CommitsExactly(lc, db, e.command, e.decision, e.transition);
      if Committable(lc, db, e.command) {
        CommittedIsRight(lc, db, e.command, e.decision, e.transition);
      }
    }
  }

  lemma {:induction false} LogsAgree(lc: Lifecycle, es: seq<Event>)
    ensures |After(lc, es).decisions| == |After(lc, es).transitions| == |After(lc, es).outbox|
  {
    if es != [] {
      LogsAgree(lc, es[..|es| - 1]);
      LogGoesOn(lc, After(lc, es[..|es| - 1]), es[|es| - 1]);
    }
  }

  /**
    The log is append-only, and every entry ever written was right when it was written: it is that of a command which
    was submitted just then and could be committed.
   */
  lemma {:induction false} EveryEntryWasRight(lc: Lifecycle, es: seq<Event>, i: nat) returns (k: nat)
    requires i < |After(lc, es).transitions|
    ensures |After(lc, es).decisions| == |After(lc, es).transitions| == |After(lc, es).outbox|
    ensures k < |es| && es[k].Submit? && |After(lc, es[..k]).transitions| == i
    ensures RightWhenWritten(lc, After(lc, es[..k]), es[k].command, After(lc, es).decisions[i],
                             After(lc, es).transitions[i], After(lc, es).outbox[i])
  {
    var n := |es| - 1;
    LogsAgree(lc, es[..n]);
    LogGoesOn(lc, After(lc, es[..n]), es[n]);
    if i < |After(lc, es[..n]).transitions| {
      k := EveryEntryWasRight(lc, es[..n], i);
      assert es[..n][..k] == es[..k];
    } else {
      k := n;
    }
  }

  /**
    And no command was dropped: wherever one was submitted that could be committed, the log has its entry for good.
   */
  lemma {:induction false} EveryCommittableIsLogged(lc: Lifecycle, es: seq<Event>, k: nat)
    requires k < |es| && es[k].Submit? && Committable(lc, After(lc, es[..k]), es[k].command)
    ensures |After(lc, es).decisions| == |After(lc, es).transitions| == |After(lc, es).outbox|
    ensures var i := |After(lc, es[..k]).transitions|;
      && i < |After(lc, es).transitions|
      && RightWhenWritten(lc, After(lc, es[..k]), es[k].command, After(lc, es).decisions[i],
                          After(lc, es).transitions[i], After(lc, es).outbox[i])
  {
    var n := |es| - 1;
    LogsAgree(lc, es[..n]);
    LogGoesOn(lc, After(lc, es[..n]), es[n]);
    if k < n {
      assert es[..n][..k] == es[..k];
      EveryCommittableIsLogged(lc, es[..n], k);
    }
  }

  // ---- The repository ----

  class PostgresControlPlane {
    const lifecycle: Lifecycle
    var strategies: map<string, Uuid>
    var states: map<Uuid, StageState>
    var bindings: map<Uuid, Binding>
    var decisions: seq<Decision>
    var transitions: seq<Transition>
    var outbox: seq<Outbox>

    constructor (lifecycle: Lifecycle)
      ensures this.lifecycle == lifecycle && View() == EMPTY
    {
      this.lifecycle := lifecycle;
      strategies, states, bindings := map[], map[], map[];
      decisions, transitions, outbox := [], [], [];
    }

    function View(): Database
      reads this
    {
      Database(strategies, states, bindings, decisions, transitions, outbox)
    }

    /** Refuses evidence that is absent, or not all current and qualifying. */
    method ValidateEvidence(sid: Uuid, c: Command, source: string) returns (error: Option<Error>)
      ensures error == if source in NO_EVIDENCE_SOURCES then None
                       else if c.evidence == [] then Some(EvidenceMissing)
                       else if AllQualify(View(), c.evidence, sid, c.version, source) then None
                       else Some(EvidenceNotQualifying)
    {
      if source in NO_EVIDENCE_SOURCES {
        return None;
      }
      if c.evidence == [] {
        return Some(EvidenceMissing);
      }
      var validIds := set id | id in bindings && id in c.evidence && Qualifies(bindings[id], sid, c.version, source);
      var missing := (set id | id in c.evidence) - validIds;
      if missing != {} {
        var id :| id in missing;
        assert id in c.evidence && !(id in View().bindings && Qualifies(View().bindings[id], sid, c.version, source));
        return Some(EvidenceNotQualifying);
      }
      forall id | id in c.evidence ensures id in bindings && Qualifies(bindings[id], sid, c.version, source) {
        assert id !in missing;
      }
      return None;
    }

    /** One transaction: everything is written, or nothing is. */
    method CommitTransition(c: Command, decision: Uuid, transition: Uuid) returns (r: Result<Committed, Error>)
      modifies this
      ensures (View(), r) == Commit(lifecycle, old(View()), c, decision, transition)
    {
      if Blank(c.actor) || Blank(c.reason) || Blank(c.policyVersion) {
        return Err(MissingFields);
      }
      var source, target := lifecycle.normalize(c.fromStage), lifecycle.normalize(c.toStage);
      if source.None? || target.None? {
        return Err(UnknownStage);
      }
      if !lifecycle.permits(source.value, target.value) {
        return Err(IllegalTransition);
      }
      if c.slug !in strategies {
        return Err(UnknownStrategy);
      }
      var sid := strategies[c.slug];
      if sid !in states {
        return Err(MissingState);
      }
      var state := states[sid];
      if state.revision != c.expectedRevision || state.stage != source.value {
        return Err(StaleState);
      }
      if state.version != Some(c.version) {
        return Err(VersionChanged);
      }
      var bad := ValidateEvidence(sid, c, source.value);
      if bad.Some? {
        return Err(bad.value);
      }
      decisions := decisions + [Decision(decision, sid, c.version, source.value, target.value, c.actor, c.reason,
                                         c.evidence, c.policyVersion)];
      var next := state.revision + 1;
      states := states[sid := StageState(target.value, state.version, next, c.actor)];
      transitions := transitions + [Transition(transition, sid, c.version, decision, source.value, target.value,
                                               state.revision, next, c.actor, c.reason)];
      outbox := outbox + [Outbox(sid, decision, source.value, target.value, c.expectedRevision, next, c.actor)];
      return Ok(Committed(decision, transition, sid, c.expectedRevision, next));
    }
  }
}
