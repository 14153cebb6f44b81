/** Where the inbound protocol's guarantees end, exactly: what callers must ensure, which tasks can still be
    closed, and which outbox rows can still be retried. */
module InboundLimits {
  import opened Common
  import opened InboundRows
  import opened InboundProtocol
  import opened InboundTheorems
  import O = FinalizeOutbox

  // ------------------------------------------------- a task in progress

  const CLAIM :=
    ClaimInput(RequestKey(Scope("exposure", "USER", "alice"), "context|message"), "", "hash", "t", Some("r"))

  /** Task "t" on run "r", bound to delegation "d", leased to "o" under token "k". */
  ghost predicate InProgress(w: World)
  {
    && Reachable(w) && w.db.now == 0 && w.claims == {} && w.db.outbox == map[]
    && w.db.tasks == map["t" := Task(CLAIM.key, "", "hash", "r", Some("d"), Running, 1, "o", "k", Some(LEASE))]
    && w.db.runs == map["r" := Run(Running, 0)]
    && w.db.delegations == map["d" := Delegation("r", "i", false, Running)]
    && w.db.steps == [Step("s", "r", "d", Running)]
    && w.db.byIdempotency == map["i" := "d"]
  }

  const LEASE := 60_000 * O.MILLISECOND

  lemma StartReachable()
    ensures Reachable(START)
  {
    assert LegalRun(START, []) && Exec(START, []) == START;
  }

  lemma Claimed() returns (w: World)
    ensures Reachable(w) && w.db.now == 0 && w.claims == {} && w.proofs == {} && w.db.outbox == map[]
    ensures w.db.tasks == map["t" := Task(CLAIM.key, "", "hash", "r", None, Running, 0, "", "", None)]
    ensures w.db.runs == map["r" := Run(Running, 0)] && w.db.delegations == map[] && w.db.steps == []
    ensures w.db.byIdempotency == map[]
  {
    hide Reachable, Finish, Cancel, Cleanup;
    StartReachable();
    w := Apply(START, ClaimRequest(CLAIM));
    ReachableStep(START, ClaimRequest(CLAIM));
  }

  lemma Prewritten() returns (w: World)
    ensures Reachable(w) && w.db.now == 0 && w.claims == {} && w.proofs == {} && w.db.outbox == map[]
    ensures w.db.tasks == map["t" := Task(CLAIM.key, "", "hash", "r", None, Running, 0, "", "", None)]
    ensures w.db.runs == map["r" := Run(Running, 0)]
    ensures w.db.delegations == map["d" := Delegation("r", "i", false, Running)]
    ensures w.db.steps == [Step("s", "r", "d", Running)] && w.db.byIdempotency == map["i" := "d"]
  {
    hide Reachable, Finish, Cancel, Cleanup;
    var v := Claimed();
    w := Apply(v, PrewriteDelegation("t", "d", "s", "i"));
    ReachableStep(v, PrewriteDelegation("t", "d", "s", "i"));
  }

  lemma TaskInProgress() returns (w: World)
    ensures InProgress(w)
  {
    hide Reachable, Finish, Cancel, Cleanup, Prewrite, ClaimTask;
    var v := Prewritten();
    var u := Apply(v, BindDelegation("t", "d"));
    ReachableStep(v, BindDelegation("t", "d"));
    assert u.db.tasks == map["t" := Task(CLAIM.key, "", "hash", "r", Some("d"), Running, 0, "", "", None)];
    var claim := ClaimLease("t", "o", LEASE, "k");
    w := Apply(u, claim);
    ReachableStep(u, claim);
  }

  // -------------------------------------------------- mixed statuses

  /** The finish transaction does accept a command with three different statuses, and agreement is gone. */
  lemma MixedStatusesCommit()
    ensures exists w, c :: Reachable(w) && MixedCommit(w.db, c)
  {
    hide Reachable, Finish;
    var w := TaskInProgress();
    var c := Command("t", "r", "o", "k", 1, Succeeded, Failed, TimedOut, Some(Running), 0, Some("d"), None);
    assert Entitled(w.db, c) && Holds(w.db, "t", "o", "k", 1);
    FinishExactly(w, c);
    UniformityIsNeeded(w, c);
    assert MixedCommit(w.db, c);
  }

  ghost predicate MixedCommit(db: Db, c: Command)
  {
    && c.taskStatus != c.runStatus && c.runStatus != c.delegationStatus && c.taskStatus != c.delegationStatus
    && Finish(db, c).out == Ok && !FourObjects(Finish(db, c).db, c.task, c.taskStatus)
  }

  // --------------------------------------------- nested delegations

  /** A delegation the agent made itself can settle while the task still runs. */
  ghost predicate NestedSettled(db: Db)
  {
    && "t" in db.tasks && db.tasks["t"].status == Running
    && exists i :: 0 <= i < |db.steps| && db.steps[i].run == db.tasks["t"].run && db.steps[i].status == Succeeded
  }

  lemma NestedDelegationsSettleEarly()
    ensures exists w :: Reachable(w) && NestedSettled(w.db)
  {
    hide Reachable, Finish, Cancel, Cleanup;
    var v := TaskInProgress();
    var u := NestedOpened(v);
    var e := NestedFinalize("n", None, Succeeded);
    var w := Apply(u, e);
    ReachableStep(u, e);
    assert w.db.steps[1].status == Succeeded;
    assert NestedSettled(w.db);
  }

  lemma NestedOpened(v: World) returns (w: World)
    requires InProgress(v)
    ensures Reachable(w) && w.db.tasks == v.db.tasks
    ensures w.db.delegations == v.db.delegations["n" := Delegation("r", "j", true, Running)]
    ensures w.db.steps == [Step("s", "r", "d", Running), Step("m", "r", "n", Running)]
  {
    hide Reachable, Finish, Cancel, Cleanup;
    var e := NestedPrewrite("r", "n", "m", "j");
    w := Apply(v, e);
    ReachableStep(v, e);
  }

  // ---------------------------------------------------- unbound tasks

  /** A running task without a delegation can always be cancelled, and cleaned up exactly while nobody holds a
      live lease. */
  lemma UnboundTaskCanBeClosed(w: World, t: Id, status: Status)
    requires Reachable(w) && t in w.db.tasks && w.db.tasks[t].status == Running && w.db.tasks[t].delegation == None
    requires Terminal(status)
    ensures Cancel(w.db, t).out == Ok && FourObjects(Cancel(w.db, t).db, t, Cancelled)
    ensures var c := CleanupInput(t, w.db.tasks[t].run, None, None, status, None);
            && (Cleanup(w.db, c).out == Ok <==> Unowned(w.db.tasks[t], w.db.now))
            && (Cleanup(w.db, c).out == Ok ==> FourObjects(Cleanup(w.db, c).db, t, status))
  {
    hide FourObjects, Reachable, DbInv, Leased, Outboxed, AuthenticPayloads;
    ReachableInv(w);
    TaskIdNonEmpty(w, t);
    OpenTaskRows(w, t);
    var c := CleanupInput(t, w.db.tasks[t].run, None, None, status, None);
    UnboundCloses(w.db, t, c);
    ReachableStep(w, CancelTask(t));
    ReachableStep(w, CleanupTask(c));
    hide Cancel, Cleanup;
    AgreedIn(Apply(w, CancelTask(t)), t, Cancelled);
    if Cleanup(w.db, c).out == Ok {
      AgreedIn(Apply(w, CleanupTask(c)), t, status);
    }
  }

  lemma AgreedIn(w: World, t: Id, status: Status)
    requires Reachable(w) && t in w.db.tasks && w.db.tasks[t].status == status
    ensures FourObjects(w.db, t, status)
  {
    hide Reachable, FourObjects, Inv;
    ReachableInv(w);
    InvGivesAgreement(w, t);
  }

  lemma UnboundCloses(db: Db, t: Id, c: CleanupInput)
    requires t != "" && t in db.tasks && db.tasks[t].status == Running && db.tasks[t].delegation == None
    requires db.tasks[t].run != "" && db.tasks[t].run in db.runs && db.runs[db.tasks[t].run].status == Running
    requires c == CleanupInput(t, db.tasks[t].run, None, None, c.status, None) && Terminal(c.status)
    ensures Cancel(db, t).out == Ok && t in Cancel(db, t).db.tasks && Cancel(db, t).db.tasks[t].status == Cancelled
    ensures Cleanup(db, c).out == Ok <==> Unowned(db.tasks[t], db.now)
    ensures Cleanup(db, c).out == Ok ==> t in Cleanup(db, c).db.tasks && Cleanup(db, c).db.tasks[t].status == c.status
  {
  }

  /** The key belongs to a delegation of another run or another kind. */
  ghost predicate TakenFrom(db: Db, key: string, run: Id, nested: bool)
  {
    && key in db.byIdempotency && db.byIdempotency[key] in db.delegations
    && (|| db.delegations[db.byIdempotency[key]].parentRun != run
        || db.delegations[db.byIdempotency[key]].nested != nested)
  }

  /** The audit writer gives a running task's run a delegation, freshly minted and running or replayed, exactly when
      the idempotency key has not been taken by another run or kind. */
  lemma PrewriteExactly(w: World, t: Id, d: Id, step: Id, key: string, nested: bool)
    requires Reachable(w) && t in w.db.tasks && w.db.tasks[t].status == Running
    requires d != "" && d !in w.db.delegations && StepIndex(w.db.steps, step) == |w.db.steps|
    ensures var run := w.db.tasks[t].run;
            var tx := Prewrite(w.db, run, d, step, key, nested);
            && tx.out == (if TakenFrom(w.db, key, run, nested) then Conflict else Ok)
            && (tx.out == Ok ==>
                  && tx.delegation.Some? && tx.delegation.value in tx.db.delegations
                  && tx.db.delegations[tx.delegation.value].parentRun == run
                  && tx.db.delegations[tx.delegation.value].nested == nested
                  && (!tx.replay ==>
                        && tx.delegation.value == d && tx.db.delegations[d].status == Running
                        && tx.db.steps == w.db.steps + [Step(step, run, d, Running)]))
  {
    hide Reachable, Inv;
    ReachableInv(w);
    OpenTaskRows(w, t);
  }

  /** An unbound running task can be given a delegation, freshly minted or replayed, and bound to it exactly
      when its idempotency key has not been taken by another run. */
  lemma BindableExactly(w: World, t: Id, d: Id, step: Id, key: string)
    requires Reachable(w) && t in w.db.tasks && w.db.tasks[t].status == Running && w.db.tasks[t].delegation == None
    requires d != "" && d !in w.db.delegations && StepIndex(w.db.steps, step) == |w.db.steps|
    ensures var tx := Prewrite(w.db, w.db.tasks[t].run, d, step, key, false);
            && tx.out == (if TakenFrom(w.db, key, w.db.tasks[t].run, false) then Conflict else Ok)
            && (tx.out == Ok ==>
                  && tx.delegation.Some? && var x := tx.delegation.value;
                  && Legal(w.(db := tx.db), BindDelegation(t, x))
                  && Bind(tx.db, t, x).out == Ok && Bind(tx.db, t, x).db.tasks[t].delegation == Some(x))
  {
    hide Reachable, DbInv, Leased, Outboxed, AuthenticPayloads;
    ReachableInv(w);
    TaskIdNonEmpty(w, t);
    OpenTaskRows(w, t);
    assert "" !in w.db.delegations by { DelegationsHaveIds(w); }
  }

  lemma DelegationsHaveIds(w: World)
    requires Inv(w)
    ensures "" !in w.db.delegations
  {
    hide Keyed, Aliased, OneRunPerTask, OpenTogether, AllAgree, Leased, Outboxed, AuthenticPayloads, StepSound;
  }

  /** The key under which the gateway records its delegation: exposure, external key, call and version, but not
      the principal. */
  function GatewayKey(k: RequestKey, call: string, version: string): string
  {
    k.scope.exposure + ":" + k.externalKey + ":" + call + ":" + version + ":" + k.scope.exposure
  }

  /** Delegations are never removed, moved or re-keyed. */
  ghost predicate KeysStay(a: Db, b: Db)
  {
    && (forall k :: k in a.byIdempotency && a.byIdempotency[k] in a.delegations ==>
          k in b.byIdempotency && b.byIdempotency[k] == a.byIdempotency[k])
    && (forall d :: d in a.delegations ==>
          && d in b.delegations && b.delegations[d].parentRun == a.delegations[d].parentRun
          && b.delegations[d].nested == a.delegations[d].nested)
  }

  lemma FinalizeKeepsOwners(a: Audit, d: Id, step: Option<Id>, run: Id, status: Status)
    ensures var after := FinalizeDelegation(a, d, step, run, status);
            after.out == Ok ==>
              && d in a.delegations
              && after.audit.delegations == a.delegations[d := a.delegations[d].(status := status)]
  {
    hide StepIndex, StepOf;
  }

  lemma FinalizeIfAnyKeepsOwners(a: Audit, d: Option<Id>, step: Option<Id>, run: Id, status: Status)
    ensures var after := FinalizeIfAny(a, d, step, run, status);
            after.out == Ok ==>
              (forall x :: x in a.delegations ==>
                 && x in after.audit.delegations
                 && after.audit.delegations[x].parentRun == a.delegations[x].parentRun
                 && after.audit.delegations[x].nested == a.delegations[x].nested)
  {
    hide FinalizeDelegation;
    if d.Some? { FinalizeKeepsOwners(a, d.value, step, run, status); }
  }

  lemma FinishKeepsKeys(db: Db, c: Command)
    ensures KeysStay(db, Finish(db, c).db)
  {
    hide FinalizeIfAny, TransitionRun;
    if c.task in db.tasks {
      FinalizeIfAnyKeepsOwners(AuditOf(db), db.tasks[c.task].delegation, c.step, c.run, c.delegationStatus);
    }
  }

  lemma CancelKeepsKeys(db: Db, t: Id)
    ensures KeysStay(db, Cancel(db, t).db)
  {
    hide FinalizeIfAny, TransitionRun;
    if t in db.tasks {
      FinalizeIfAnyKeepsOwners(AuditOf(db), db.tasks[t].delegation, None, db.tasks[t].run, Cancelled);
    }
  }

  lemma CleanupKeepsKeys(db: Db, c: CleanupInput)
    ensures KeysStay(db, Cleanup(db, c).db)
  {
    hide FinalizeIfAny, CleanupRun;
    if c.task in db.tasks {
      FinalizeIfAnyKeepsOwners(AuditOf(db), CleanupTarget(db.tasks[c.task], c), c.step, c.run, CleanupStatus(c));
    }
  }

  lemma PrewriteKeepsKeys(db: Db, run: Id, d: Id, step: Id, key: string, nested: bool)
    ensures KeysStay(db, Prewrite(db, run, d, step, key, nested).db)
  {
    hide StepIndex;
  }

  lemma UnfencedKeepsKeys(db: Db, d: Id, step: Option<Id>, status: Status)
    ensures KeysStay(db, FinalizeUnfenced(db, d, step, status).db)
  {
    hide FinalizeDelegation;
    if d in db.delegations {
      FinalizeKeepsOwners(AuditOf(db), d, step, db.delegations[d].parentRun, status);
    }
  }

  lemma SameKeys(a: Db, b: Db)
    requires a.byIdempotency == b.byIdempotency && a.delegations == b.delegations
    ensures KeysStay(a, b)
  {
  }

  lemma ClaimKeepsDelegations(db: Db, c: ClaimInput)
    ensures ClaimTask(db, c).db.byIdempotency == db.byIdempotency && ClaimTask(db, c).db.delegations == db.delegations
  {
    hide RegisterAlias;
  }

  lemma OthersKeepKeys(w: World, e: Event)
    requires Legal(w, e) && !e.FinishTask? && !e.CancelTask? && !e.CleanupTask?
    requires !e.PrewriteDelegation? && !e.NestedPrewrite? && !e.NestedFinalize?
    ensures KeysStay(w.db, Apply(w, e).db)
  {
    hide KeysStay, ClaimTask, Finish, Cancel, Cleanup, Prewrite, FinalizeUnfenced, O.Enqueue, O.TakeClaim,
      O.Acknowledge, O.Reject, Authentic;
    if e.ClaimRequest? {
      ClaimKeepsDelegations(w.db, e.claim);
    }
    SameKeys(w.db, Apply(w, e).db);
  }

  lemma StepKeepsKeys(w: World, e: Event)
    requires Legal(w, e)
    ensures KeysStay(w.db, Apply(w, e).db)
  {
    hide KeysStay, Finish, Cancel, Cleanup, Prewrite, FinalizeUnfenced, ClaimTask, Bind, ClaimExecution, Renew;
    match e
    case FinishTask(c) => FinishKeepsKeys(w.db, c);
    case CancelTask(t) => CancelKeepsKeys(w.db, t);
    case CleanupTask(c) => CleanupKeepsKeys(w.db, c);
    case PrewriteDelegation(t, d, s, key) => PrewriteKeepsKeys(w.db, w.db.tasks[t].run, d, s, key, false);
    case NestedPrewrite(run, d, s, key) => PrewriteKeepsKeys(w.db, run, d, s, key, true);
    case NestedFinalize(d, s, status) => UnfencedKeepsKeys(w.db, d, s, status);
    case _ => OthersKeepKeys(w, e);
  }

  lemma {:induction false} RunKeepsKeys(w: World, es: seq<Event>)
    requires LegalRun(w, es)
    ensures KeysStay(w.db, Exec(w, es).db)
    decreases |es|
  {
    hide Legal, Apply;
    if es != [] {
      StepKeepsKeys(w, es[0]);
      RunKeepsKeys(Apply(w, es[0]), es[1..]);
    }
  }

  /** Two principals asking the same exposure the same question share that key: once one has its delegation, the
      other's prewrite conflicts in every later state, so its task is never bound that way. */
  lemma SecondPrincipalCannotBind(
      w: World, es: seq<Event>, t: Id, u: Id, call: string, version: string, d: Id, step: Id)
    requires Reachable(w) && LegalRun(w, es) && t in w.db.tasks && u in w.db.tasks && t != u
    requires w.db.tasks[t].key.scope.exposure == w.db.tasks[u].key.scope.exposure
    requires w.db.tasks[t].key.externalKey == w.db.tasks[u].key.externalKey
    requires var key := GatewayKey(w.db.tasks[t].key, call, version);
             && key in w.db.byIdempotency && w.db.byIdempotency[key] in w.db.delegations
             && w.db.delegations[w.db.byIdempotency[key]].parentRun == w.db.tasks[t].run
    ensures var later := Exec(w, es).db;
            && u in later.tasks
            && Prewrite(later, later.tasks[u].run, d, step, GatewayKey(later.tasks[u].key, call, version), false).out
               == Conflict
  {
    hide Reachable, Legal, Apply, LegalRun, Exec;
    OneAuthority(w, t, u);
    RunKeepsKeys(w, es);
    RunAdvances(w, es);
    assert Advances(w.db.tasks[u], Exec(w, es).db.tasks[u]);
  }

  const KEY := GatewayKey(CLAIM.key, "message", "1")
  const BOB := ClaimInput(RequestKey(Scope("exposure", "USER", "bob"), "context|message"), "", "hash", "u", Some("q"))

  /** Alice has her delegation and Bob his task, on the same question to the same exposure. */
  ghost predicate TwoPrincipals(w: World)
  {
    && "t" in w.db.tasks && "u" in w.db.tasks
    && w.db.tasks["t"].key == CLAIM.key && w.db.tasks["u"].key == BOB.key
    && w.db.tasks["u"].status == Running && w.db.tasks["u"].delegation == None
    && KEY in w.db.byIdempotency && w.db.byIdempotency[KEY] in w.db.delegations
    && w.db.delegations[w.db.byIdempotency[KEY]].parentRun == w.db.tasks["t"].run
  }

  lemma AliceIsFirst() returns (w: World)
    ensures Reachable(w) && w.db.byIdempotency == map[KEY := "d"]
    ensures w.db.delegations == map["d" := Delegation("r", KEY, false, Running)]
    ensures w.db.tasks == map["t" := Task(CLAIM.key, "", "hash", "r", None, Running, 0, "", "", None)]
    ensures w.db.runs == map["r" := Run(Running, 0)]
  {
    hide Reachable, Finish, Cancel, Cleanup, GatewayKey;
    var v := Claimed();
    var e := PrewriteDelegation("t", "d", "s", KEY);
    w := Apply(v, e);
    ReachableStep(v, e);
  }

  lemma BobIsNew(w: World)
    requires Reachable(w) && w.db.tasks.Keys == {"t"} && w.db.tasks["t"].key == CLAIM.key
    ensures BOB.key !in w.db.byKey
  {
    hide Reachable, Inv;
    ReachableInv(w);
    DbInvKeyed(w);
    assert BOB.key.scope.actorId != CLAIM.key.scope.actorId;
  }

  lemma BobClaims(db: Db)
    requires BOB.key !in db.byKey && "q" !in db.runs && "u" !in db.tasks
    ensures var post := ClaimTask(db, BOB).db;
            && post.tasks == db.tasks["u" := FreshTask(BOB, "q")]
            && post.byIdempotency == db.byIdempotency && post.delegations == db.delegations
  {
    assert BOB.key.externalKey != "" && BOB.key.scope.exposure != "" && ValidKey(BOB.key);
  }

  lemma BobFollows() returns (w: World)
    ensures Reachable(w) && TwoPrincipals(w) && w.db.tasks["u"].run == "q" && w.db.tasks["t"].run == "r"
  {
    hide Reachable, Finish, Cancel, Cleanup, GatewayKey, Prewrite, ClaimTask;
    var v := AliceIsFirst();
    BobIsNew(v);
    BobClaims(v.db);
    w := Apply(v, ClaimRequest(BOB));
    ReachableStep(v, ClaimRequest(BOB));
  }

  /** The situation arises, and there Bob's prewrite conflicts while his task runs, unbound. */
  lemma SecondPrincipalIsReachable()
    ensures exists w :: Reachable(w) && TwoPrincipals(w) && BobIsRefused(w)
  {
    var w := BobFollows();
    hide Reachable, GatewayKey, Apply, Legal;
    SameQuestionSameKey();
    assert BobIsRefused(w);
  }

  ghost predicate BobIsRefused(w: World)
    requires "u" in w.db.tasks
  {
    forall d, step ::
      Prewrite(w.db, w.db.tasks["u"].run, d, step, GatewayKey(BOB.key, "message", "1"), false).out == Conflict
  }

  lemma SameQuestionSameKey()
    ensures GatewayKey(BOB.key, "message", "1") == KEY
  {
  }

  // ---------------------------------------------------- foreign bindings

  /** A running task bound to a delegation of another run. */
  ghost predicate Stuck(db: Db, t: Id)
  {
    && t in db.tasks && db.tasks[t].status == Running && db.tasks[t].delegation.Some?
    && db.tasks[t].delegation.value in db.delegations
    && db.delegations[db.tasks[t].delegation.value].parentRun != db.tasks[t].run
  }

  lemma StuckRefusesClosing(db: Db, t: Id, c: Command, k: CleanupInput)
    requires Stuck(db, t) && c.task == t && k.task == t
    ensures Finish(db, c).out != Ok && Cancel(db, t).out != Ok && Cleanup(db, k).out != Ok
    ensures Finish(db, c).db == db && Cancel(db, t).db == db && Cleanup(db, k).db == db
  {
    hide FinalizeStep, TransitionRun, CleanupRun;
  }

  lemma StuckAfterClosing(w: World, e: Event, t: Id)
    requires Legal(w, e) && (e.FinishTask? || e.CancelTask? || e.CleanupTask?) && Stuck(w.db, t)
    ensures t in Apply(w, e).db.tasks && Apply(w, e).db.tasks[t] == w.db.tasks[t]
  {
    hide Finish, Cancel, Cleanup;
    var c := Command(t, "", "", "", 0, Failed, Failed, Failed, None, 0, None, None);
    var k := CleanupInput(t, "", None, None, Failed, None);
    match e
    case FinishTask(x) =>
      FinishTouchesOnlyTask(w.db, x);
      if x.task == t { StuckRefusesClosing(w.db, t, x, k); }
    case CancelTask(x) =>
      CancelTouchesOnlyTask(w.db, x);
      StuckRefusesClosing(w.db, t, c, k);
    case CleanupTask(x) =>
      CleanupTouchesOnlyTask(w.db, x);
      if x.task == t { StuckRefusesClosing(w.db, t, c, x); }
  }

  lemma StuckAfterOther(w: World, e: Event, t: Id)
    requires Legal(w, e) && !e.FinishTask? && !e.CancelTask? && !e.CleanupTask? && Stuck(w.db, t)
    ensures t in Apply(w, e).db.tasks && Apply(w, e).db.tasks[t].status == Running
  {
    hide Prewrite, FinalizeUnfenced, RegisterAlias;
    match e
    case PrewriteDelegation(x, d, s, key) => PrewriteForward(w.db, w.db.tasks[x].run, d, s, key, false);
    case NestedPrewrite(run, d, s, key) => PrewriteForward(w.db, run, d, s, key, true);
    case NestedFinalize(d, s, status) => FinalizeUnfencedForward(w.db, d, s, status);
    case _ =>
  }

  /** A task bound to a delegation of another run could not be closed by anyone, ever: this is what binding only
      the run's own delegation is for. */
  lemma {:induction false} ForeignBindingIsForEver(w: World, es: seq<Event>, t: Id, c: Command, k: CleanupInput)
    requires LegalRun(w, es) && Stuck(w.db, t) && c.task == t && k.task == t
    ensures Stuck(Exec(w, es).db, t)
    ensures var later := Exec(w, es).db;
            Finish(later, c).out != Ok && Cancel(later, t).out != Ok && Cleanup(later, k).out != Ok
    decreases |es|
  {
    hide Legal, Apply, Finish, Cancel, Cleanup;
    if es == [] {
      StuckRefusesClosing(w.db, t, c, k);
    } else {
      StuckStep(w, es[0], t);
      ForeignBindingIsForEver(Apply(w, es[0]), es[1..], t, c, k);
    }
  }

  lemma StuckStep(w: World, e: Event, t: Id)
    requires Legal(w, e) && Stuck(w.db, t)
    ensures Stuck(Apply(w, e).db, t)
  {
    hide Legal, Apply;
    StepAdvances(w, e);
    StepKeepsKeys(w, e);
    assert Advances(w.db.tasks[t], Apply(w, e).db.tasks[t]);
    if e.FinishTask? || e.CancelTask? || e.CleanupTask? {
      StuckAfterClosing(w, e, t);
    } else {
      StuckAfterOther(w, e, t);
    }
  }

  // ------------------------------------------------------------ claims

  /** A claim is idempotent and found again: repeating it answers with the same task and changes nothing more, and
      a lookup of its external task id sees that task. Otherwise it left every table as it was. */
  lemma ClaimIsIdempotent(w: World, c: ClaimInput)
    requires Reachable(w) && c.newTask != ""
    ensures var tx := ClaimTask(w.db, c);
            if tx.out == Ok then
              && tx.task.Some?
              && ClaimTask(tx.db, c) == ClaimTx(Ok, tx.task, true, tx.db)
              && (c.externalTask != "" ==> Visible(tx.db, c.key.scope, c.externalTask, tx.task.value))
            else tx.db == w.db
  {
    hide DbInv, Leased, Outboxed, AuthenticPayloads, Reachable;
    ReachableInv(w);
    DbInvKeyed(w);
  }

  // ------------------------------------------------------------ outbox

  /** Some worker gets the row, after events that are not the executor's own delete. */
  ghost predicate ClaimedAfter(w: World, d: Id, es: seq<Event>, claim: Event)
  {
    && LegalRun(w, es) && (forall e :: e in es ==> !e.ForgetOutbox?)
    && claim.ClaimOutbox? && claim.delegation == d && Legal(Exec(w, es), claim)
    && var v := Exec(w, es);
       O.TakeClaim(v.db.outbox, v.db.now, d, claim.owner, claim.lease, claim.token).1.Some?
  }

  ghost predicate Retriable(w: World, d: Id)
  {
    exists es, claim :: ClaimedAfter(w, d, es, claim)
  }

  lemma {:induction false} TokensAreBounded(claims: set<O.Claim<Command>>) returns (n: nat)
    ensures forall c :: c in claims ==> |c.token| <= n
  {
    if claims == {} {
      n := 0;
    } else {
      var x :| x in claims;
      n := TokensAreBounded(claims - {x});
      if n < |x.token| {
        n := |x.token|;
      }
    }
  }

  /** There is always a token nobody has used. */
  lemma FreshToken(claims: set<O.Claim<Command>>) returns (token: string)
    ensures token != "" && forall c :: c in claims ==> c.token != token
  {
    var n := TokensAreBounded(claims);
    token := seq(n + 1, _ => 'x');
  }

  /** Time until the row is due and free. */
  function Wait(row: O.Row<Command>, now: int): nat
  {
    var due := if row.nextAttemptAt > now then row.nextAttemptAt - now else 0;
    if row.claimedUntil.Some? && row.claimedUntil.value + 1 - now > due then row.claimedUntil.value + 1 - now else due
  }

  lemma WaitMakesClaimable(row: O.Row<Command>, now: int)
    requires row.attempts < O.MAX_ATTEMPTS
    ensures O.Claimable(row, now + Wait(row, now))
  {
  }

  lemma OneStep(w: World, e: Event)
    requires Legal(w, e)
    ensures LegalRun(w, [e]) && Exec(w, [e]) == Apply(w, e)
  {
    hide Legal, Apply;
    assert ([e])[1..] == [];
    assert LegalRun(Apply(w, e), []);
  }

  lemma BelowTheCap(w: World, d: Id)
    requires d in w.db.outbox && w.db.outbox[d].attempts < O.MAX_ATTEMPTS
    ensures Retriable(w, d)
  {
    hide LegalRun, Exec, Finish, Cancel, Cleanup, ClaimTask, O.EffectiveLease;
    var token := FreshToken(w.claims);
    var tick, claim := Tick(Wait(w.db.outbox[d], w.db.now)), ClaimOutbox(d, "", 0, token);
    OneStep(w, tick);
    WaitMakesClaimable(w.db.outbox[d], w.db.now);
    assert ClaimedAfter(w, d, [tick], claim);
  }

  /** In every reachable state a row can still be claimed by some continuation exactly while it has been rejected
      fewer than 32 times: enqueueing its command again does not bring it back, because attempts are kept. */
  lemma RetriableExactly(w: World, d: Id)
    requires Reachable(w) && d in w.db.outbox
    ensures Retriable(w, d) <==> w.db.outbox[d].attempts < 32
  {
    hide Reachable, DbInv, Leased, Outboxed, AuthenticPayloads, LegalRun, Exec, Legal;
    ReachableInv(w);
    AttemptsAtMost32(w, d);
    if w.db.outbox[d].attempts < O.MAX_ATTEMPTS {
      BelowTheCap(w, d);
    } else if Retriable(w, d) {
      var es, claim :| ClaimedAfter(w, d, es, claim);
      ExhaustedRowIsNeverRetried(w, es, d);
    }
  }

  lemma AttemptsAtMost32(w: World, d: Id)
    requires Inv(w) && d in w.db.outbox
    ensures w.db.outbox[d].attempts <= O.MAX_ATTEMPTS
    ensures w.db.outbox[d].attempts == O.MAX_ATTEMPTS ==> Exhausted(w, d)
  {
    hide DbInv, Leased, AuthenticPayloads;
    assert RowSound(d, w.db.outbox[d], w.claims, w.rejections);
  }

  /** A worker claims the row when it is due and rejects it. */
  lemma RejectOnce(w: World, d: Id) returns (v: World)
    requires Reachable(w) && d in w.db.outbox && w.db.outbox[d].attempts < O.MAX_ATTEMPTS
    ensures Reachable(v) && d in v.db.outbox && v.db.outbox[d].attempts == w.db.outbox[d].attempts + 1
    ensures v.db.tasks == w.db.tasks
  {
    hide Reachable, Finish, Cancel, Cleanup, ClaimTask, Authentic, O.EffectiveLease, O.Backoff;
    var token := FreshToken(w.claims);
    var tick := Tick(Wait(w.db.outbox[d], w.db.now));
    var w1 := Apply(w, tick);
    ReachableStep(w, tick);
    WaitMakesClaimable(w.db.outbox[d], w.db.now);
    var w2 := Apply(w1, ClaimOutbox(d, "", 0, token));
    ReachableStep(w1, ClaimOutbox(d, "", 0, token));
    var row := w1.db.outbox[d];
    var nack := NackOutbox(O.Claim(d, O.EffectiveOwner(""), token, row.payload, row.attempts));
    v := Apply(w2, nack);
    ReachableStep(w2, nack);
  }

  lemma {:induction false} RejectUntil(w: World, d: Id, n: nat) returns (v: World)
    requires Reachable(w) && d in w.db.outbox && w.db.outbox[d].attempts <= n <= O.MAX_ATTEMPTS
    ensures Reachable(v) && d in v.db.outbox && v.db.outbox[d].attempts == n && v.db.tasks == w.db.tasks
    decreases n - w.db.outbox[d].attempts
  {
    hide Reachable;
    v := w;
    if w.db.outbox[d].attempts < n {
      v := RejectOnce(w, d);
      v := RejectUntil(v, d, n);
    }
  }

  /** The task bound to the delegation is still running. */
  ghost predicate StillRuns(db: Db, d: Id)
  {
    exists t :: t in db.tasks && db.tasks[t].status == Running && db.tasks[t].delegation == Some(d)
  }

  lemma EnqueuedInProgress() returns (w: World)
    ensures Reachable(w) && "d" in w.db.outbox && w.db.outbox["d"].attempts == 0 && StillRuns(w.db, "d")
  {
    hide Reachable, Finish, Cancel, Cleanup, ClaimTask;
    var v := TaskInProgress();
    var c := Command("t", "r", "o", "k", 1, Succeeded, Succeeded, Succeeded, Some(Running), 0, Some("d"), None);
    assert Authentic(v.db, c);
    w := Apply(v, EnqueueFinish(c));
    ReachableStep(v, EnqueueFinish(c));
    assert "t" in w.db.tasks && w.db.tasks["t"].delegation == Some("d");
  }

  /** The cap is reached: some run ends with a row no worker will ever claim again, its task still running. */
  lemma ExhaustedRowIsReachable()
    ensures exists w, d :: Reachable(w) && d in w.db.outbox && !Retriable(w, d) && StillRuns(w.db, d)
  {
    hide Reachable, Retriable;
    var w := EnqueuedInProgress();
    var v := RejectUntil(w, "d", O.MAX_ATTEMPTS);
    RetriableExactly(v, "d");
  }
}
