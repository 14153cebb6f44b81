/** What every run of the inbound protocol guarantees. */
module InboundTheorems {
  import opened Common
  import opened InboundRows
  import opened InboundProtocol
  import opened InboundSafety
  import O = FinalizeOutbox

  // ------------------------------------------------------- one step back

  /** A task keeps its identity and binding, its generation never falls, and once terminal its row is frozen. */
  ghost predicate Advances(before: Task, after: Task)
  {
    && SameIdentity(before, after)
    && before.generation <= after.generation
    && (before.delegation.Some? ==> after.delegation == before.delegation)
    && (Terminal(before.status) ==> after == before)
  }

  ghost predicate TasksAdvance(before: Tasks, after: Tasks)
  {
    forall t :: t in before ==> t in after && Advances(before[t], after[t])
  }

  ghost predicate AliasesGrow(before: map<AliasKey, Id>, after: map<AliasKey, Id>)
  {
    forall k :: k in before ==> k in after && after[k] == before[k]
  }

  /** A terminal writer closes one open task and leaves aliases, clock and outbox alone. */
  ghost predicate ClosesOnly(db: Db, post: Db, t: Id)
  {
    && post.aliases == db.aliases && post.now == db.now && post.outbox == db.outbox
    && (post.tasks == db.tasks
        || (t in db.tasks && !Terminal(db.tasks[t].status) && t in post.tasks
            && Closed(db.tasks[t], post.tasks[t], post.tasks[t].status)
            && post.tasks == db.tasks[t := post.tasks[t]]))
  }

  lemma ClosesOnlyAdvances(db: Db, post: Db, t: Id)
    requires ClosesOnly(db, post, t)
    ensures TasksAdvance(db.tasks, post.tasks)
  {
  }

  lemma FinishTouchesOnlyTask(db: Db, c: Command)
    ensures ClosesOnly(db, Finish(db, c).db, c.task)
  {
    hide FinalizeIfAny, TransitionRun;
  }

  lemma CancelTouchesOnlyTask(db: Db, t: Id)
    ensures ClosesOnly(db, Cancel(db, t).db, t)
  {
    hide FinalizeIfAny, TransitionRun;
  }

  lemma CleanupTouchesOnlyTask(db: Db, c: CleanupInput)
    ensures ClosesOnly(db, Cleanup(db, c).db, c.task)
  {
    hide FinalizeIfAny, CleanupRun;
  }

  /** One event moves tasks forward, keeps aliases, and never runs the clock backwards. */
  lemma StepAdvances(w: World, e: Event)
    requires Legal(w, e)
    ensures TasksAdvance(w.db.tasks, Apply(w, e).db.tasks)
    ensures AliasesGrow(w.db.aliases, Apply(w, e).db.aliases)
    ensures w.db.now <= Apply(w, e).db.now
    ensures w.proofs <= Apply(w, e).proofs && w.claims <= Apply(w, e).claims
  {
    if e.FinishTask? || e.CancelTask? || e.CleanupTask? {
      CloserAdvances(w, e);
    } else if e.ClaimRequest? {
      ClaimAdvances(w, e);
    } else if IsWorker(e) {
      WorkerAdvances(w, e);
    } else {
      OutboxAdvances(w, e);
    }
  }

  lemma CloserAdvances(w: World, e: Event)
    requires Legal(w, e) && (e.FinishTask? || e.CancelTask? || e.CleanupTask?)
    ensures TasksAdvance(w.db.tasks, Apply(w, e).db.tasks) && AliasesGrow(w.db.aliases, Apply(w, e).db.aliases)
    ensures w.db.now == Apply(w, e).db.now && w.proofs == Apply(w, e).proofs && w.claims == Apply(w, e).claims
    ensures w.db.outbox == Apply(w, e).db.outbox
  {
    hide Finish, Cancel, Cleanup;
    match e
    case FinishTask(c) =>
      FinishTouchesOnlyTask(w.db, c);
      ClosesOnlyAdvances(w.db, Finish(w.db, c).db, c.task);
    case CancelTask(t) =>
      CancelTouchesOnlyTask(w.db, t);
      ClosesOnlyAdvances(w.db, Cancel(w.db, t).db, t);
    case CleanupTask(c) =>
      CleanupTouchesOnlyTask(w.db, c);
      ClosesOnlyAdvances(w.db, Cleanup(w.db, c).db, c.task);
  }

  /** A transaction that moves tasks forward and leaves clock and outbox alone. */
  ghost predicate Forward(db: Db, post: Db)
  {
    && TasksAdvance(db.tasks, post.tasks) && AliasesGrow(db.aliases, post.aliases)
    && post.now == db.now && post.outbox == db.outbox
  }

  lemma NothingMoves(tasks: Tasks, aliases: map<AliasKey, Id>)
    ensures TasksAdvance(tasks, tasks) && AliasesGrow(aliases, aliases)
  {
  }

  lemma OneTaskMoves(tasks: Tasks, t: Id, task: Task)
    requires t in tasks ==> Advances(tasks[t], task)
    ensures TasksAdvance(tasks, tasks[t := task])
  {
  }

  lemma AliasGrows(aliases: map<AliasKey, Id>, scope: Scope, external: string, t: Id)
    ensures AliasesGrow(aliases, RegisterAlias(aliases, scope, external, t).aliases)
  {
  }

  lemma ClaimForward(db: Db, c: ClaimInput)
    ensures Forward(db, ClaimTask(db, c).db)
  {
    hide RegisterAlias, TasksAdvance, AliasesGrow, FreshTask, Advances;
    NothingMoves(db.tasks, db.aliases);
    if c.key in db.byKey {
      AliasGrows(db.aliases, c.key.scope, c.externalTask, db.byKey[c.key]);
    }
    AliasGrows(db.aliases, c.key.scope, c.externalTask, c.newTask);
    if c.newTask !in db.tasks && c.prepared.Some? {
      OneTaskMoves(db.tasks, c.newTask, FreshTask(c, c.prepared.value));
    }
  }

  lemma PrewriteForward(db: Db, run: Id, d: Id, step: Id, key: string, nested: bool)
    ensures Forward(db, Prewrite(db, run, d, step, key, nested).db)
    ensures Prewrite(db, run, d, step, key, nested).db.tasks == db.tasks
  {
    hide TasksAdvance, AliasesGrow;
    NothingMoves(db.tasks, db.aliases);
  }

  lemma FinalizeUnfencedForward(db: Db, d: Id, step: Option<Id>, status: Status)
    ensures Forward(db, FinalizeUnfenced(db, d, step, status).db)
    ensures FinalizeUnfenced(db, d, step, status).db.tasks == db.tasks
  {
    hide TasksAdvance, AliasesGrow, FinalizeDelegation;
    NothingMoves(db.tasks, db.aliases);
  }

  lemma BindForward(db: Db, t: Id, d: Id)
    ensures Forward(db, Bind(db, t, d).db)
  {
    hide TasksAdvance, AliasesGrow;
    NothingMoves(db.tasks, db.aliases);
    if t in db.tasks && Bind(db, t, d).db != db {
      OneTaskMoves(db.tasks, t, Bind(db, t, d).db.tasks[t]);
    }
  }

  lemma LeaseForward(db: Db, t: Id, owner: string, lease: int, token: string)
    ensures Forward(db, ClaimExecution(db, t, owner, lease, token).db) && Forward(db, db)
  {
    hide O.EffectiveOwner, LeaseLength, TasksAdvance, AliasesGrow;
    NothingMoves(db.tasks, db.aliases);
    if t in db.tasks && ClaimExecution(db, t, owner, lease, token).owned {
      OneTaskMoves(db.tasks, t, ClaimExecution(db, t, owner, lease, token).db.tasks[t]);
    }
  }

  lemma RenewForward(db: Db, t: Id, owner: string, token: string, lease: int)
    ensures Forward(db, Renew(db, t, owner, token, lease).db)
  {
    hide LeaseLength, TasksAdvance, AliasesGrow;
    NothingMoves(db.tasks, db.aliases);
    if t in db.tasks && Renew(db, t, owner, token, lease).out == Ok {
      OneTaskMoves(db.tasks, t, Renew(db, t, owner, token, lease).db.tasks[t]);
    }
  }

  predicate IsWorker(e: Event)
  {
    || e.PrewriteDelegation? || e.NestedPrewrite? || e.NestedFinalize?
    || e.BindDelegation? || e.ClaimLease? || e.RenewLease?
  }

  lemma ClaimAdvances(w: World, e: Event)
    requires Legal(w, e) && e.ClaimRequest?
    ensures Forward(w.db, Apply(w, e).db)
    ensures w.proofs == Apply(w, e).proofs && w.claims == Apply(w, e).claims
  {
    hide ClaimTask, Forward, Finish, Cancel, Cleanup;
    ClaimForward(w.db, e.claim);
  }

  lemma WorkerAdvances(w: World, e: Event)
    requires Legal(w, e) && IsWorker(e)
    ensures Forward(w.db, Apply(w, e).db)
    ensures w.proofs <= Apply(w, e).proofs && w.claims == Apply(w, e).claims
  {
    hide Prewrite, FinalizeUnfenced, Bind, ClaimExecution, Renew, Forward, Finish, Cancel, Cleanup;
    match e
    case PrewriteDelegation(t, d, s, key) => PrewriteForward(w.db, w.db.tasks[t].run, d, s, key, false);
    case NestedPrewrite(run, d, s, key) => PrewriteForward(w.db, run, d, s, key, true);
    case NestedFinalize(d, s, status) => FinalizeUnfencedForward(w.db, d, s, status);
    case BindDelegation(t, d) => BindForward(w.db, t, d);
    case ClaimLease(t, owner, lease, token) => LeaseForward(w.db, t, owner, lease, token);
    case RenewLease(t, owner, token, lease) => RenewForward(w.db, t, owner, token, lease);
  }

  lemma OutboxAdvances(w: World, e: Event)
    requires Legal(w, e)
    requires e.EnqueueFinish? || e.ClaimOutbox? || e.AckOutbox? || e.NackOutbox? || e.ForgetOutbox? || e.Tick?
    ensures w.db.tasks == Apply(w, e).db.tasks && w.db.aliases == Apply(w, e).db.aliases
    ensures TasksAdvance(w.db.tasks, w.db.tasks)
    ensures w.db.now <= Apply(w, e).db.now && w.proofs == Apply(w, e).proofs && w.claims <= Apply(w, e).claims
  {
  }

  /** Only these events touch outbox rows. */
  predicate TouchesOutbox(e: Event)
  {
    e.EnqueueFinish? || e.ClaimOutbox? || e.AckOutbox? || e.NackOutbox? || e.ForgetOutbox?
  }

  lemma OthersKeepOutbox(w: World, e: Event)
    requires Legal(w, e) && !TouchesOutbox(e)
    ensures Apply(w, e).db.outbox == w.db.outbox && Apply(w, e).claims == w.claims
  {
    if e.FinishTask? || e.CancelTask? || e.CleanupTask? {
      CloserAdvances(w, e);
    } else if e.ClaimRequest? {
      ClaimAdvances(w, e);
    } else if !e.Tick? {
      WorkerAdvances(w, e);
    }
  }

  lemma {:induction false} RunAdvances(w: World, es: seq<Event>)
    requires LegalRun(w, es)
    ensures TasksAdvance(w.db.tasks, Exec(w, es).db.tasks)
    ensures AliasesGrow(w.db.aliases, Exec(w, es).db.aliases)
    ensures w.db.now <= Exec(w, es).db.now
    ensures w.proofs <= Exec(w, es).proofs && w.claims <= Exec(w, es).claims
    decreases |es|
  {
    hide Legal, Apply;
    if es != [] {
      StepAdvances(w, es[0]);
      RunAdvances(Apply(w, es[0]), es[1..]);
    }
  }

  // ------------------------------------------------- reachable states

  /** Some legal run from the empty database ends here. */
  ghost predicate Reachable(w: World)
  {
    exists es :: LegalRun(START, es) && Exec(START, es) == w
  }

  lemma ReachableInv(w: World)
    requires Reachable(w)
    ensures Inv(w)
  {
    hide Inv, Legal, Apply;
    var es :| LegalRun(START, es) && Exec(START, es) == w;
    StartSafe();
    RunSafe(START, es);
  }

  lemma {:induction false} RunExtends(w: World, es: seq<Event>, e: Event)
    requires LegalRun(w, es) && Legal(Exec(w, es), e)
    ensures LegalRun(w, es + [e]) && Exec(w, es + [e]) == Apply(Exec(w, es), e)
    decreases |es|
  {
    hide Legal, Apply;
    if es == [] {
      assert es + [e] == [e] && [e][1..] == [];
      assert LegalRun(Apply(w, e), []);
    } else {
      RunExtends(Apply(w, es[0]), es[1..], e);
      assert (es + [e])[1..] == es[1..] + [e];
    }
  }

  lemma ReachableStep(w: World, e: Event)
    requires Reachable(w) && Legal(w, e)
    ensures Reachable(Apply(w, e))
  {
    hide Legal, Apply;
    var es :| LegalRun(START, es) && Exec(START, es) == w;
    RunExtends(START, es, e);
  }

  // ---------------------------------------------- four-object agreement

  /** Task, run, bound delegation and that delegation's step are all in `status`. */
  ghost predicate FourObjects(db: Db, t: Id, status: Status)
  {
    && t in db.tasks && db.tasks[t].status == status
    && db.tasks[t].run in db.runs && db.runs[db.tasks[t].run].status == status
    && (db.tasks[t].delegation.Some? ==>
          var d := db.tasks[t].delegation.value;
          && d in db.delegations && db.delegations[d].status == status
          && (exists i :: 0 <= i < |db.steps| && db.steps[i].delegation == d)
          && (forall i :: 0 <= i < |db.steps| && db.steps[i].delegation == d ==> db.steps[i].status == status))
  }

  /** A step of a delegation the gateway made for the task's run. */
  ghost predicate OwnStep(db: Db, t: Id, s: Step)
    requires t in db.tasks
  {
    s.run == db.tasks[t].run && s.delegation in db.delegations && !db.delegations[s.delegation].nested
  }

  lemma InvGivesAgreement(w: World, t: Id)
    requires Inv(w) && t in w.db.tasks
    ensures FourObjects(w.db, t, w.db.tasks[t].status)
    ensures w.db.tasks[t].status == Running || Terminal(w.db.tasks[t].status)
    ensures w.db.tasks[t].status == Running ==>
              forall i :: 0 <= i < |w.db.steps| && OwnStep(w.db, t, w.db.steps[i]) ==> w.db.steps[i].status == Running
  {
    hide Keyed, Aliased, Leased, Outboxed, AuthenticPayloads;
    var db := w.db;
    assert Agrees(db.tasks[t], db.runs, db.delegations);
    forall i | 0 <= i < |db.steps|
      ensures && db.steps[i].delegation in db.delegations
              && db.steps[i].run == db.delegations[db.steps[i].delegation].parentRun
              && db.steps[i].status == db.delegations[db.steps[i].delegation].status
    {
      assert StepSound(db.steps, i, db.delegations);
    }
    forall d | d in db.delegations && db.delegations[d].parentRun == db.tasks[t].run && db.tasks[t].status == Running
               && !db.delegations[d].nested
      ensures db.delegations[d].status == Running
    {
      assert w.preparedFor[db.delegations[d].parentRun] == t;
    }
    if db.tasks[t].delegation.Some? {
      var d := db.tasks[t].delegation.value;
      var i := StepOf(db.steps, db.delegations[d].parentRun, d);
      assert 0 <= i < |db.steps| && db.steps[i].delegation == d;
    }
  }

  /** In every reachable state the four objects of every task are in one status, and while the task runs every
      delegation the gateway made for its run, bound or not yet, has a running step. Delegations the running
      agent makes itself may open and settle at any time. */
  lemma FourObjectAgreement(es: seq<Event>)
    requires LegalRun(START, es)
    ensures var db := Exec(START, es).db;
            forall t :: t in db.tasks ==>
              && FourObjects(db, t, db.tasks[t].status)
              && (db.tasks[t].status == Running || Terminal(db.tasks[t].status))
              && (db.tasks[t].status == Running ==>
                    forall i :: 0 <= i < |db.steps| && OwnStep(db, t, db.steps[i]) ==> db.steps[i].status == Running)
  {
    hide Inv, FourObjects;
    StartSafe();
    RunSafe(START, es);
    forall t | t in Exec(START, es).db.tasks
      ensures var db := Exec(START, es).db;
              && FourObjects(db, t, db.tasks[t].status)
              && (db.tasks[t].status == Running || Terminal(db.tasks[t].status))
              && (db.tasks[t].status == Running ==>
                    forall i :: 0 <= i < |db.steps| && OwnStep(db, t, db.steps[i]) ==> db.steps[i].status == Running)
    {
      InvGivesAgreement(Exec(START, es), t);
    }
  }

  /** The first terminal write is the last: no continuation moves any of the four objects again. */
  lemma TerminalIsFinal(w: World, es: seq<Event>, t: Id)
    requires Reachable(w) && LegalRun(w, es)
    requires t in w.db.tasks && Terminal(w.db.tasks[t].status)
    ensures t in Exec(w, es).db.tasks && Exec(w, es).db.tasks[t] == w.db.tasks[t]
    ensures FourObjects(Exec(w, es).db, t, w.db.tasks[t].status)
  {
    hide Inv, FourObjects;
    ReachableInv(w);
    RunSafe(w, es);
    RunAdvances(w, es);
    InvGivesAgreement(Exec(w, es), t);
  }

  /** A committed cancel defeats every later finish of the task, and a committed finish
      turns every later cancel into a no-op. */
  lemma CancelAndFinishHaveOneWinner(w: World, first: Event, es: seq<Event>, t: Id, late: Command)
    requires Reachable(w) && Legal(w, first) && LegalRun(Apply(w, first), es)
    requires t in w.db.tasks && w.db.tasks[t].status == Running && late.task == t
    requires t in Apply(w, first).db.tasks && Terminal(Apply(w, first).db.tasks[t].status)
    ensures var later := Exec(Apply(w, first), es).db;
            && Finish(later, late).out != Ok && Finish(later, late).db == later
            && Cancel(later, t) == Tx(Ok, later)
  {
    hide Inv, FourObjects, Reachable, Legal, Apply, LegalRun, Exec, Finish;
    ReachableStep(w, first);
    ReachableInv(Apply(w, first));
    TerminalIsFinal(Apply(w, first), es, t);
    TaskIdNonEmpty(Apply(w, first), t);
    ClosedTaskRefuses(Exec(Apply(w, first), es).db, late);
  }

  lemma ClosedTaskRefuses(db: Db, c: Command)
    requires c.task in db.tasks && Terminal(db.tasks[c.task].status)
    ensures Finish(db, c).out != Ok && Finish(db, c).db == db
  {
  }

  lemma TaskIdNonEmpty(w: World, t: Id)
    requires Inv(w) && t in w.db.tasks
    ensures t != "" && w.db.tasks[t].run != ""
  {
    hide Keyed, Aliased, Paired, OpenTogether, AllAgree, Leased, Outboxed, AuthenticPayloads;
  }

  /** The finish transaction itself accepts three different statuses; agreement survives
      a successful one exactly when they coincide. */
  lemma UniformityIsNeeded(w: World, c: Command)
    requires Reachable(w) && Finish(w.db, c).out == Ok
    ensures FourObjects(Finish(w.db, c).db, c.task, c.taskStatus) <==> Uniform(c)
  {
    ReachableInv(w);
    if Uniform(c) {
      assert Inv(w.(db := Finish(w.db, c).db)) by { hide *; FinishSafe(w, c); }
      FinishSetsTask(w.db, c);
      InvGivesAgreement(w.(db := Finish(w.db, c).db), c.task);
    } else {
      FinishSetsEach(w.db, c);
    }
  }

  lemma FinishSetsTask(db: Db, c: Command)
    requires Finish(db, c).out == Ok
    ensures c.task in Finish(db, c).db.tasks && Finish(db, c).db.tasks[c.task].status == c.taskStatus
    ensures Finish(db, c).db.tasks[c.task].delegation == db.tasks[c.task].delegation
    ensures db.tasks[c.task].delegation.Some? && Finish(db, c).db.tasks[c.task].run == c.run
  {
    hide FinalizeIfAny, TransitionRun, CleanupRun;
  }

  lemma FinalizeSetsDelegation(a: Audit, d: Id, step: Option<Id>, run: Id, status: Status)
    requires FinalizeDelegation(a, d, step, run, status).out == Ok
    ensures var post := FinalizeDelegation(a, d, step, run, status).audit.delegations;
            d in post && post[d].status == status
  {
    hide StepIndex, StepOf;
  }

  lemma FinishSetsEach(db: Db, c: Command)
    requires Finish(db, c).out == Ok
    ensures var post := Finish(db, c).db;
            && c.run in post.runs && post.runs[c.run].status == c.runStatus
            && db.tasks[c.task].delegation.Some?
            && var d := db.tasks[c.task].delegation.value;
               d in post.delegations && post.delegations[d].status == c.delegationStatus
    ensures Finish(db, c).db.tasks[c.task].status == c.taskStatus
  {
    hide FinalizeDelegation;
    FinishSetsTask(db, c);
    FinalizeSetsDelegation(AuditOf(db), db.tasks[c.task].delegation.value, c.step, c.run, c.delegationStatus);
  }

  // --------------------------------------------------------- fencing

  /** A proof older than the task's generation, or a closed task, can never finish again,
      however often the command is replayed. */
  lemma StaleProofIsFenced(w: World, es: seq<Event>, c: Command)
    requires LegalRun(w, es)
    requires c.task in w.db.tasks
    requires c.generation < w.db.tasks[c.task].generation || Terminal(w.db.tasks[c.task].status)
    ensures var later := Exec(w, es).db; Finish(later, c).out != Ok && Finish(later, c).db == later
    ensures WellFormed(c) ==> Finish(Exec(w, es).db, c).out == Conflict
  {
    RunAdvances(w, es);
  }

  /** Reclaim, cancel and cleanup each fence every proof handed out before. */
  lemma RaisingFencesEarlierProofs(w: World, e: Event, es: seq<Event>, p: Proof, c: Command)
    requires Reachable(w) && Legal(w, e) && LegalRun(Apply(w, e), es) && p in w.proofs
    requires c.task == p.task && c.generation == p.generation
    requires || (e.ClaimLease? && e.task == p.task && ClaimExecution(w.db, e.task, e.owner, e.lease, e.token).owned)
             || (e.CancelTask? && e.task == p.task && Cancel(w.db, e.task).out == Ok)
             || (e.CleanupTask? && e.cleanup.task == p.task && Cleanup(w.db, e.cleanup).out == Ok)
    ensures var later := Exec(Apply(w, e), es).db; Finish(later, c).out != Ok && Finish(later, c).db == later
  {
    ReachableInv(w);
    assert Leased(w.db.tasks, w.proofs) by { hide DbInv, Outboxed, AuthenticPayloads; }
    RaisesOrCloses(w, e, p.task);
    StaleProofIsFenced(Apply(w, e), es, c);
  }

  lemma RaisesOrCloses(w: World, e: Event, t: Id)
    requires Legal(w, e) && t in w.db.tasks
    requires || (e.ClaimLease? && e.task == t && ClaimExecution(w.db, e.task, e.owner, e.lease, e.token).owned)
             || (e.CancelTask? && e.task == t && Cancel(w.db, e.task).out == Ok)
             || (e.CleanupTask? && e.cleanup.task == t && Cleanup(w.db, e.cleanup).out == Ok)
    ensures t in Apply(w, e).db.tasks
    ensures w.db.tasks[t].generation < Apply(w, e).db.tasks[t].generation || Terminal(Apply(w, e).db.tasks[t].status)
  {
    hide FinalizeIfAny, TransitionRun, CleanupRun;
  }

  // --------------------------------------------------- mutual exclusion

  ghost predicate Held(db: Db, p: Proof)
  {
    Holds(db, p.task, p.owner, p.token, p.generation)
  }

  /** At most one proof is held per task, and it was handed out by a claim. */
  lemma OneHolder(w: World, p: Proof, q: Proof)
    requires Reachable(w) && Held(w.db, p) && Held(w.db, q) && p.task == q.task
    ensures p == q && p in w.proofs
  {
    hide DbInv, Outboxed, AuthenticPayloads;
    ReachableInv(w);
  }

  /** A claim gets a generation above every earlier one of its task. */
  lemma ClaimsCountUp(w: World, t: Id, owner: string, lease: int, token: string, p: Proof)
    requires Reachable(w) && p in w.proofs && p.task == t
    requires ClaimExecution(w.db, t, owner, lease, token).owned
    ensures p.generation < ClaimExecution(w.db, t, owner, lease, token).generation
    ensures !Held(ClaimExecution(w.db, t, owner, lease, token).db, p)
  {
    hide DbInv, Outboxed, AuthenticPayloads;
    ReachableInv(w);
  }

  lemma LostAfterRenew(w: World, t: Id, owner: string, token: string, lease: int, p: Proof)
    requires Leased(w.db.tasks, w.proofs) && p in w.proofs && !Held(w.db, p)
    ensures !Held(Renew(w.db, t, owner, token, lease).db, p)
  {
    if Renew(w.db, t, owner, token, lease).out == Ok && t == p.task && w.db.tasks[t].token == p.token {
      assert Proof(t, w.db.tasks[t].owner, w.db.tasks[t].token, w.db.tasks[t].generation) in w.proofs;
    }
  }

  lemma LostAfterClosing(db: Db, post: Db, t: Id, p: Proof)
    requires ClosesOnly(db, post, t) && !Held(db, p)
    ensures !Held(post, p)
  {
  }

  lemma LostAfterOther(w: World, e: Event, p: Proof)
    requires Legal(w, e) && p.task in w.db.tasks && !Held(w.db, p)
    requires !e.ClaimLease? && !e.RenewLease? && !e.FinishTask? && !e.CancelTask? && !e.CleanupTask?
    ensures !Held(Apply(w, e).db, p)
  {
    hide Prewrite, FinalizeUnfenced, RegisterAlias;
    match e
    case PrewriteDelegation(t, d, s, key) => PrewriteForward(w.db, w.db.tasks[t].run, d, s, key, false);
    case NestedPrewrite(run, d, s, key) => PrewriteForward(w.db, run, d, s, key, true);
    case NestedFinalize(d, s, status) => FinalizeUnfencedForward(w.db, d, s, status);
    case _ =>
  }

  lemma LostStaysLostStep(w: World, e: Event, p: Proof)
    requires Leased(w.db.tasks, w.proofs) && Legal(w, e) && p in w.proofs && !Held(w.db, p)
    ensures !Held(Apply(w, e).db, p)
  {
    hide Held, Finish, Cancel, Cleanup, Renew, ClosesOnly, Leased;
    assert p.task in w.db.tasks by { ProofHasTask(w.db.tasks, w.proofs, p); }
    match e
    case ClaimLease(t, owner, lease, token) => LostAfterClaim(w, e, p);
    case RenewLease(t, owner, token, lease) => LostAfterRenew(w, t, owner, token, lease, p);
    case FinishTask(c) =>
      FinishTouchesOnlyTask(w.db, c);
      LostAfterClosing(w.db, Finish(w.db, c).db, c.task, p);
    case CancelTask(t) =>
      CancelTouchesOnlyTask(w.db, t);
      LostAfterClosing(w.db, Cancel(w.db, t).db, t, p);
    case CleanupTask(c) =>
      CleanupTouchesOnlyTask(w.db, c);
      LostAfterClosing(w.db, Cleanup(w.db, c).db, c.task, p);
    case _ => LostAfterOther(w, e, p);
  }

  lemma ProofHasTask(tasks: Tasks, proofs: set<Proof>, p: Proof)
    requires Leased(tasks, proofs) && p in proofs
    ensures p.task in tasks
  {
  }

  lemma LostAfterClaim(w: World, e: Event, p: Proof)
    requires Legal(w, e) && e.ClaimLease? && p in w.proofs && !Held(w.db, p)
    ensures !Held(Apply(w, e).db, p)
  {
  }

  /** A lease once lost, by expiry, reclaim, cancel or completion, is never revived by its old holder. */
  lemma {:induction false} LostLeaseStaysLost(w: World, es: seq<Event>, p: Proof)
    requires Reachable(w) && LegalRun(w, es) && p in w.proofs && !Held(w.db, p)
    ensures !Held(Exec(w, es).db, p)
    decreases |es|
  {
    hide DbInv, Leased, Outboxed, AuthenticPayloads, Legal, Apply, Held, Reachable;
    ReachableInv(w);
    if es != [] {
      LostStaysLostStep(w, es[0], p);
      ReachableStep(w, es[0]);
      StepAdvances(w, es[0]);
      LostLeaseStaysLost(Apply(w, es[0]), es[1..], p);
    }
  }

  /** Task, run, bound delegation and its steps are what they were. */
  ghost predicate SameObjects(db: Db, post: Db, t: Id)
    requires t in db.tasks
  {
    var task := db.tasks[t];
    && t in post.tasks && post.tasks[t] == task
    && (task.run in db.runs ==> task.run in post.runs && post.runs[task.run] == db.runs[task.run])
    && (task.delegation.Some? && task.delegation.value in db.delegations ==>
          && task.delegation.value in post.delegations
          && post.delegations[task.delegation.value] == db.delegations[task.delegation.value])
    && |post.steps| == |db.steps|
    && (forall i :: 0 <= i < |db.steps| && task.delegation == Some(db.steps[i].delegation) ==>
          post.steps[i] == db.steps[i])
  }

  lemma CleanupIsRefused(db: Db, c: CleanupInput, p: Proof)
    requires Held(db, p) && p.generation >= 1 && c.task == p.task
    ensures Cleanup(db, c).out != Ok && Cleanup(db, c).db == db
  {
    hide CleanupRun, FinalizeIfAny;
  }

  lemma TerminalWriteSpares(db: Db, post: Db, t: Id, status: Status, d: Option<Id>, u: Id, of: map<Id, Id>)
    requires TerminalWrite(db, post, t, status, d) && u in db.tasks && u != t
    requires OneRunPerTask(db.tasks, db.runs, of) && BoundToOwnRun(db.tasks, db.delegations)
    ensures SameObjects(db, post, u)
  {
    hide Closed;
    assert of[db.tasks[u].run] == u && of[db.tasks[t].run] == t;
  }

  lemma CleanupSpares(w: World, c: CleanupInput, u: Id)
    requires Inv(w) && Cleanup(w.db, c).out == Ok && (c.delegationStatus.None? || c.delegationStatus.value == c.status)
    requires u in w.db.tasks && u != c.task
    ensures SameObjects(w.db, Cleanup(w.db, c).db, u)
  {
    hide Keyed, Aliased, OneRunPerTask, Paired, BoundToOwnRun, OpenTogether, AllAgree, Leased, Outboxed,
      AuthenticPayloads, SameObjects, TerminalWrite;
    CleanupShape(w.db, c);
    TerminalWriteSpares(w.db, Cleanup(w.db, c).db, c.task, c.status, CleanupTarget(w.db.tasks[c.task], c), u,
                        w.preparedFor);
  }

  /** While a proof is held, no cleanup, of its task or of another, moves any of the task's four objects. */
  lemma CleanupRespectsLeases(w: World, c: CleanupInput, p: Proof)
    requires Reachable(w) && Held(w.db, p) && Legal(w, CleanupTask(c))
    ensures SameObjects(w.db, Apply(w, CleanupTask(c)).db, p.task)
  {
    hide Reachable, Cleanup, DbInv, Outboxed, AuthenticPayloads;
    ReachableInv(w);
    OneHolder(w, p, p);
    assert SameObjects(w.db, w.db, p.task);
    hide SameObjects;
    if c.task == p.task {
      CleanupIsRefused(w.db, c, p);
    } else if Cleanup(w.db, c).out == Ok {
      CleanupSpares(w, c, p.task);
    } else {
      CleanupTouchesNothing(w.db, c);
    }
  }

  lemma CleanupTouchesNothing(db: Db, c: CleanupInput)
    requires Cleanup(db, c).out != Ok
    ensures Cleanup(db, c).db == db
  {
    hide CleanupRun, FinalizeIfAny;
  }

  // ------------------------------------------------------- no dead end

  lemma FinalizeSucceeds(a: Audit, d: Id, step: Option<Id>, status: Status)
    requires Paired(a.steps, a.delegations) && Terminal(status)
    requires d in a.delegations && a.delegations[d].status == Running
    requires step.Some? ==> StepIndex(a.steps, step.value) < |a.steps|
                            && a.steps[StepIndex(a.steps, step.value)].delegation == d
    ensures FinalizeDelegation(a, d, step, a.delegations[d].parentRun, status).out == Ok
  {
    var run := a.delegations[d].parentRun;
    var i := if step.Some? then StepIndex(a.steps, step.value) else StepOf(a.steps, run, d);
    assert StepSound(a.steps, i, a.delegations);
  }

  lemma OpenTaskRows(w: World, t: Id)
    requires Inv(w) && t in w.db.tasks && w.db.tasks[t].status == Running
    ensures w.db.tasks[t].run in w.db.runs && w.db.runs[w.db.tasks[t].run].status == Running
    ensures w.db.tasks[t].delegation.Some? ==>
              var d := w.db.tasks[t].delegation.value;
              && d in w.db.delegations && w.db.delegations[d].status == Running
              && w.db.delegations[d].parentRun == w.db.tasks[t].run
  {
    assert w.db.tasks[t].delegation.Some? ==> !w.db.delegations[w.db.tasks[t].delegation.value].nested by {
      hide Keyed, Aliased, Paired, Leased, Outboxed, AuthenticPayloads, OpenTogether, AllAgree, OneRunPerTask;
    }
    hide Keyed, Aliased, Paired, Leased, Outboxed, AuthenticPayloads;
    assert Agrees(w.db.tasks[t], w.db.runs, w.db.delegations);
    assert w.preparedFor[w.db.tasks[t].run] == t;
  }

  /** A command for the task's own run and bound delegation, with any three terminal statuses, commits exactly while
      its proof is held and what it expects of the run is so; otherwise it conflicts. */
  lemma FinishExactly(w: World, c: Command)
    requires Reachable(w) && Entitled(w.db, c)
    ensures c.run in w.db.runs
    ensures Finish(w.db, c).out ==
              if && Holds(w.db, c.task, c.owner, c.token, c.generation)
                 && (c.expectedRun == None || c.expectedRun == Some(Running))
                 && (c.expectedLock <= 0 || c.expectedLock == w.db.runs[c.run].lockVersion)
              then Ok else Conflict
  {
    hide Reachable, Inv, Finish, Holds, Entitled;
    ReachableInv(w);
    RunOfTask(w, c.task);
    assert Entitled(w.db, c) ==> c.task in w.db.tasks && w.db.tasks[c.task].run == c.run by { EntitledRun(w.db, c); }
    if Holds(w.db, c.task, c.owner, c.token, c.generation) {
      HeldRuns(w.db, c);
      OpenTaskRows(w, c.task);
      assert Paired(w.db.steps, w.db.delegations) by { PairedNow(w); }
      EntitledRun(w.db, c);
      FinishCommits(w.db, c);
    } else {
      UnheldConflicts(w.db, c);
    }
  }

  lemma EntitledRun(db: Db, c: Command)
    requires Entitled(db, c)
    ensures c.task in db.tasks && db.tasks[c.task].run == c.run && db.tasks[c.task].delegation.Some?
  {
  }

  lemma HeldRuns(db: Db, c: Command)
    requires Holds(db, c.task, c.owner, c.token, c.generation)
    ensures c.task in db.tasks && db.tasks[c.task].status == Running
  {
  }

  lemma UnheldConflicts(db: Db, c: Command)
    requires Entitled(db, c) && !Holds(db, c.task, c.owner, c.token, c.generation)
    ensures Finish(db, c).out == Conflict
  {
  }

  lemma PairedNow(w: World)
    requires Inv(w)
    ensures Paired(w.db.steps, w.db.delegations)
  {
    hide Keyed, Aliased, OneRunPerTask, Paired, BoundToOwnRun, OpenTogether, AllAgree, Leased, Outboxed,
      AuthenticPayloads;
  }

  lemma RunOfTask(w: World, t: Id)
    requires Inv(w)
    ensures t in w.db.tasks ==> w.db.tasks[t].run in w.db.runs
  {
    hide Keyed, Aliased, Paired, BoundToOwnRun, OpenTogether, AllAgree, Leased, Outboxed, AuthenticPayloads;
  }

  lemma FinishCommits(db: Db, c: Command)
    requires Paired(db.steps, db.delegations)
    requires Entitled(db, c) && Holds(db, c.task, c.owner, c.token, c.generation)
    requires c.run in db.runs && db.runs[c.run].status == Running
    requires var d := db.tasks[c.task].delegation.value;
             d in db.delegations && db.delegations[d].status == Running && db.delegations[d].parentRun == c.run
    ensures Finish(db, c).out ==
              if && (c.expectedRun == None || c.expectedRun == Some(Running))
                 && (c.expectedLock <= 0 || c.expectedLock == db.runs[c.run].lockVersion)
              then Ok else Conflict
  {
    hide FinalizeDelegation, Paired;
    FinalizeSucceeds(AuditOf(db), db.tasks[c.task].delegation.value, c.step, c.delegationStatus);
  }

  /** A row dropped on conflict changed nothing, and its task is closed, held under a live
      lease by someone else, or free to be claimed. */
  lemma DroppedRowIsHarmless(w: World, c: Command)
    requires Reachable(w) && Entitled(w.db, c) && ExpectsRunning(c) && Finish(w.db, c).out == Conflict
    ensures Finish(w.db, c).db == w.db
    ensures var task := w.db.tasks[c.task];
            || Terminal(task.status)
            || Reclaimable(task, w.db.now)
            || (&& Held(w.db, Proof(c.task, task.owner, task.token, task.generation))
                && Proof(c.task, task.owner, task.token, task.generation)
                   != Proof(c.task, c.owner, c.token, c.generation))
  {
    ReachableInv(w);
    FinishExactly(w, c);
    var task := w.db.tasks[c.task];
    if task.status == Running && LeaseLive(task, w.db.now) {
      LiveLeaseHasToken(w.db.tasks, w.proofs, c.task);
    } else if task.status != Running {
      InvGivesAgreement(w, c.task);
    }
  }

  lemma LiveLeaseHasToken(tasks: Tasks, proofs: set<Proof>, t: Id)
    requires Leased(tasks, proofs) && t in tasks && tasks[t].leaseUntil.Some?
    ensures tasks[t].token != ""
  {
  }

  /** Wait out the lease, claim, finish. */
  function Rescue(db: Db, t: Id, owner: string, lease: int, token: string, status: Status): seq<Event>
    requires t in db.tasks && db.tasks[t].delegation.Some?
  {
    [ Tick(WaitFor(db, t)),
      ClaimLease(t, owner, lease, token),
      FinishTask(Command(t, db.tasks[t].run, O.EffectiveOwner(owner), token, db.tasks[t].generation + 1,
                         status, status, status, Some(Running), 0, db.tasks[t].delegation, None)) ]
  }

  function WaitFor(db: Db, t: Id): nat
    requires t in db.tasks
  {
    if LeaseLive(db.tasks[t], db.now) then db.tasks[t].leaseUntil.value - db.now + 1 else 0
  }

  /** Every running task with a bound delegation can still reach any terminal status with all four objects in it. */
  lemma NoDeadEnd(w: World, t: Id, owner: string, lease: int, token: string, status: Status)
    requires Reachable(w) && t in w.db.tasks && w.db.tasks[t].status == Running && w.db.tasks[t].delegation.Some?
    requires Terminal(status) && token != "" && forall p :: p in w.proofs ==> p.token != token
    ensures var es := Rescue(w.db, t, owner, lease, token, status);
            LegalRun(w, es) && FourObjects(Exec(w, es).db, t, status)
  {
    hide DbInv, Leased, Outboxed, AuthenticPayloads, FourObjects, Finish, Reachable, Apply, Legal, Holds, Entitled;
    var es := Rescue(w.db, t, owner, lease, token, status);
    Reclaims(w, t, owner, lease, token, status);
    var w1 := Apply(w, es[0]);
    var w2 := Apply(w1, es[1]);
    var c := es[2].command;
    FinishExactly(w2, c);
    FinishIsLegal(w2, c);
    var w3 := Apply(w2, es[2]);
    ReachableStep(w2, es[2]);
    ReachableInv(w3);
    FinishSetsTask(w2.db, c);
    InvGivesAgreement(w3, t);
    ThreeSteps(w, es, w1, w2, w3);
  }

  lemma FinishIsLegal(w: World, c: Command)
    requires Uniform(c)
    ensures Legal(w, FinishTask(c)) && Apply(w, FinishTask(c)).db == Finish(w.db, c).db
  {
    hide Finish;
  }

  /** Waiting out the lease and claiming gives a proof the finish will be held under. */
  lemma Reclaims(w: World, t: Id, owner: string, lease: int, token: string, status: Status)
    requires Reachable(w) && t in w.db.tasks && w.db.tasks[t].status == Running && w.db.tasks[t].delegation.Some?
    requires Terminal(status) && token != "" && forall p :: p in w.proofs ==> p.token != token
    ensures var es := Rescue(w.db, t, owner, lease, token, status);
            && Legal(w, es[0]) && Legal(Apply(w, es[0]), es[1]) && Reachable(Apply(Apply(w, es[0]), es[1]))
            && Authentic(Apply(Apply(w, es[0]), es[1]).db, es[2].command)
            && var c := es[2].command;
               Holds(Apply(Apply(w, es[0]), es[1]).db, c.task, c.owner, c.token, c.generation)
  {
    hide DbInv, Leased, Outboxed, AuthenticPayloads, Finish, Cancel, Cleanup, Reachable, ClaimExecution, Holds;
    var es := Rescue(w.db, t, owner, lease, token, status);
    var w1 := Apply(w, es[0]);
    ReachableStep(w, es[0]);
    ReachableStep(w1, es[1]);
    ReachableInv(w);
    TaskIdNonEmpty(w, t);
    LeaseAfterWait(w.db, t, owner, lease, token);
  }

  lemma LeaseAfterWait(db: Db, t: Id, owner: string, lease: int, token: string)
    requires t in db.tasks && db.tasks[t].status == Running && token != ""
    ensures var tx := ClaimExecution(db.(now := db.now + WaitFor(db, t)), t, owner, lease, token);
            && tx.owned && tx.generation == db.tasks[t].generation + 1 && t in tx.db.tasks
            && Holds(tx.db, t, O.EffectiveOwner(owner), token, tx.generation)
            && tx.db.tasks[t].run == db.tasks[t].run && tx.db.tasks[t].delegation == db.tasks[t].delegation
  {
    hide O.EffectiveOwner;
  }

  lemma ThreeSteps(w: World, es: seq<Event>, w1: World, w2: World, w3: World)
    requires |es| == 3
    requires Legal(w, es[0]) && w1 == Apply(w, es[0])
    requires Legal(w1, es[1]) && w2 == Apply(w1, es[1])
    requires Legal(w2, es[2]) && w3 == Apply(w2, es[2])
    ensures LegalRun(w, es) && Exec(w, es) == w3
  {
    hide Legal, Apply;
    var tail := es[1..];
    assert tail[0] == es[1] && tail[1..][0] == es[2] && tail[1..][1..] == [];
    assert LegalRun(w3, []) && LegalRun(w2, tail[1..]) && LegalRun(w1, tail);
    assert Exec(w2, tail[1..]) == w3 && Exec(w1, tail) == w3;
  }

  // ---------------------------------------------- one authority per request

  /** One request identity names one task, and one run belongs to one task. */
  lemma OneAuthority(w: World, t: Id, u: Id)
    requires Reachable(w) && t in w.db.tasks && u in w.db.tasks
    ensures w.db.tasks[t].key == w.db.tasks[u].key || w.db.tasks[t].run == w.db.tasks[u].run ==> t == u
  {
    hide Paired, OpenTogether, AllAgree, Aliased, Leased, Outboxed, AuthenticPayloads;
    ReachableInv(w);
    assert w.db.byKey[w.db.tasks[t].key] == t && w.preparedFor[w.db.tasks[t].run] == t;
  }

  /** No claim, failed or not, leaves a run without its task. */
  lemma NoOrphanRun(es: seq<Event>, r: Id)
    requires LegalRun(START, es) && r in Exec(START, es).db.runs
    ensures exists t :: t in Exec(START, es).db.tasks && Exec(START, es).db.tasks[t].run == r
  {
    StartSafe();
    RunSafe(START, es);
    RunHasTask(Exec(START, es), r);
  }

  lemma RunHasTask(w: World, r: Id)
    requires Inv(w) && r in w.db.runs
    ensures exists t :: t in w.db.tasks && w.db.tasks[t].run == r
  {
    hide Keyed, Paired, OpenTogether, AllAgree, Aliased, Leased, Outboxed, AuthenticPayloads;
    assert w.preparedFor[r] in w.db.tasks;
  }

  /** What a claim answers once its request has an authority. */
  function Answer(db: Db, c: ClaimInput, t: Id): ClaimTx
    requires t in db.tasks
  {
    var reg := RegisterAlias(db.aliases, c.key.scope, c.externalTask, t);
    if c.requestHash != db.tasks[t].requestHash || reg.out != Ok then ClaimTx(Conflict, None, false, db)
    else ClaimTx(Ok, Some(t), true, db.(aliases := reg.aliases))
  }

  lemma ClaimAnswers(db: Db, c: ClaimInput, t: Id)
    requires Keyed(db.tasks, db.byKey) && ValidKey(c.key) && t in db.tasks && db.tasks[t].key == c.key
    ensures ClaimTask(db, c) == Answer(db, c, t)
  {
  }

  lemma ClaimEstablishes(db: Db, c: ClaimInput)
    requires Keyed(db.tasks, db.byKey) && ClaimTask(db, c).out == Ok
    ensures ValidKey(c.key) && ClaimTask(db, c).task.Some?
    ensures var t, post := ClaimTask(db, c).task.value, ClaimTask(db, c).db;
            t in post.tasks && post.tasks[t].key == c.key && post.tasks[t].requestHash == c.requestHash
  {
  }

  /** After a claim committed, every retry of the same request, in every later state: the same body gets the
      same task and run back unless its external task id already names another task; another body changes nothing. */
  lemma RetriesFindTheAuthority(w: World, es: seq<Event>, first: ClaimInput, retry: ClaimInput)
    requires Reachable(w) && first.newTask != "" && LegalRun(Apply(w, ClaimRequest(first)), es)
    requires ClaimTask(w.db, first).out == Ok && retry.key == first.key
    ensures ClaimTask(w.db, first).task.Some?
    ensures var t := ClaimTask(w.db, first).task.value;
            var now := ClaimTask(w.db, first).db;
            var later := Exec(Apply(w, ClaimRequest(first)), es).db;
            && t in now.tasks && t in later.tasks && later.tasks[t].run == now.tasks[t].run
            && later.tasks[t].requestHash == first.requestHash
            && ClaimTask(later, retry) == Answer(later, retry, t)
  {
    hide DbInv, Leased, Outboxed, AuthenticPayloads, ClaimTask, Keyed, Answer;
    ReachableInv(w);
    var mid := Apply(w, ClaimRequest(first));
    DbInvKeyed(w);
    ClaimEstablishes(w.db, first);
    StepSafe(w, ClaimRequest(first));
    RunSafe(mid, es);
    RunAdvances(mid, es);
    DbInvKeyed(Exec(mid, es));
    ClaimAnswers(Exec(mid, es).db, retry, ClaimTask(w.db, first).task.value);
  }

  lemma DbInvKeyed(w: World)
    requires Inv(w)
    ensures Keyed(w.db.tasks, w.db.byKey) && Aliased(w.db.tasks, w.db.aliases)
  {
    hide Keyed, Aliased, OneRunPerTask, Paired, BoundToOwnRun, OpenTogether, AllAgree, Leased, Outboxed,
      AuthenticPayloads;
  }

  /** An external task id shows one principal the same single task, in every later state, by primary id or alias. */
  lemma LookupIsStable(w: World, es: seq<Event>, scope: Scope, ext: string, t: Id, u: Id)
    requires Reachable(w) && LegalRun(w, es) && ext != ""
    requires Visible(w.db, scope, ext, t) && Visible(Exec(w, es).db, scope, ext, u)
    ensures t == u && Visible(Exec(w, es).db, scope, ext, t)
  {
    hide DbInv, Leased, Outboxed, AuthenticPayloads;
    ReachableInv(w);
    RunSafe(w, es);
    RunAdvances(w, es);
    DbInvKeyed(w);
    DbInvKeyed(Exec(w, es));
  }

  // ------------------------------------------------------------ outbox

  ghost predicate HoldsRow(w: World, c: O.Claim<Command>)
  {
    O.HoldsClaim(w.db.outbox, c.delegation, c.owner, c.token)
  }

  /** Only the latest claimant can act on a row, and what it acknowledges is what it carried away. */
  lemma OnlyTheLatestClaimantActs(w: World, c: O.Claim<Command>, d: O.Claim<Command>)
    requires Reachable(w) && c in w.claims && d in w.claims && c.delegation == d.delegation
    requires HoldsRow(w, c)
    ensures w.db.outbox[c.delegation].payload == c.payload && w.db.outbox[c.delegation].attempts == c.attempts
    ensures HoldsRow(w, d) ==> c == d
  {
    hide DbInv, Leased, AuthenticPayloads;
    ReachableInv(w);
    ClaimIsCurrent(w.db.outbox, w.claims, w.rejections, c);
  }

  lemma StaleClaimStep(w: World, e: Event, c: O.Claim<Command>)
    requires Outboxed(w.db.outbox, w.claims, w.rejections) && Legal(w, e) && c in w.claims && !HoldsRow(w, c)
    ensures !HoldsRow(Apply(w, e), c)
  {
    if !TouchesOutbox(e) {
      OthersKeepOutbox(w, e);
      hide Apply, Legal, Outboxed;
    } else {
      hide Authentic;
    }
  }

  /** A claim lost to expiry and reclaim, rejection or re-enqueue never gets its row back. */
  lemma {:induction false} StaleClaimStaysStale(w: World, es: seq<Event>, c: O.Claim<Command>)
    requires Reachable(w) && LegalRun(w, es) && c in w.claims && !HoldsRow(w, c)
    ensures !HoldsRow(Exec(w, es), c)
    decreases |es|
  {
    hide DbInv, Leased, Outboxed, AuthenticPayloads, Legal, Apply, HoldsRow, Reachable;
    ReachableInv(w);
    if es != [] {
      StaleClaimStep(w, es[0], c);
      ReachableStep(w, es[0]);
      StepAdvances(w, es[0]);
      StaleClaimStaysStale(Apply(w, es[0]), es[1..], c);
    }
  }

  /** Re-enqueueing a delegation takes its row out of every outstanding claim, for good. */
  lemma ReenqueueInvalidatesClaims(w: World, k: Command, es: seq<Event>, c: O.Claim<Command>)
    requires Reachable(w) && Legal(w, EnqueueFinish(k)) && LegalRun(Apply(w, EnqueueFinish(k)), es)
    requires c in w.claims && k.delegation == Some(c.delegation)
    ensures !HoldsRow(Exec(Apply(w, EnqueueFinish(k)), es), c)
  {
    hide DbInv, Leased, Outboxed, AuthenticPayloads, Reachable, LegalRun, Exec;
    ReachableInv(w);
    ReachableStep(w, EnqueueFinish(k));
    EnqueueUnclaims(w, k, c);
    StaleClaimStaysStale(Apply(w, EnqueueFinish(k)), es, c);
  }

  lemma EnqueueUnclaims(w: World, k: Command, c: O.Claim<Command>)
    requires Outboxed(w.db.outbox, w.claims, w.rejections) && Legal(w, EnqueueFinish(k))
    requires c in w.claims && k.delegation == Some(c.delegation)
    ensures c in Apply(w, EnqueueFinish(k)).claims && !HoldsRow(Apply(w, EnqueueFinish(k)), c)
  {
  }

  /** Attempts count accepted rejections and stop at 32. */
  lemma AttemptsCountRejections(es: seq<Event>, d: Id)
    requires LegalRun(START, es) && d in Exec(START, es).db.outbox
    ensures var w := Exec(START, es); d in w.rejections && w.db.outbox[d].attempts == w.rejections[d] <= 32
  {
    StartSafe();
    RunSafe(START, es);
    assert Outboxed(Exec(START, es).db.outbox, Exec(START, es).claims, Exec(START, es).rejections)
    by { hide DbInv, Leased, Outboxed, AuthenticPayloads; }
    assert RowSound(d, Exec(START, es).db.outbox[d], Exec(START, es).claims, Exec(START, es).rejections);
  }

  ghost predicate Spent(rows: O.Rows<Command>, d: Id)
  {
    d in rows && rows[d].attempts == O.MAX_ATTEMPTS && rows[d].claimedBy == ""
  }

  ghost predicate Exhausted(w: World, d: Id)
  {
    Spent(w.db.outbox, d)
  }

  lemma SpentStays(rows: O.Rows<Command>, now: int, d: Id, x: Id, payload: Command,
                   owner: string, lease: int, token: string, attempts: nat)
    requires Spent(rows, d)
    ensures Spent(O.Enqueue(rows, now, x, payload), d)
    ensures Spent(O.TakeClaim(rows, now, x, owner, lease, token).0, d)
    ensures x == d ==> O.TakeClaim(rows, now, x, owner, lease, token).1 == None
    ensures owner != "" ==> Spent(O.Acknowledge(rows, x, owner, token), d)
    ensures owner != "" ==> Spent(O.Reject(rows, now, x, owner, token, attempts), d)
  {
  }

  lemma SpentClaim(rows: O.Rows<Command>, now: int, d: Id, x: Id, owner: string, lease: int, token: string)
    requires Spent(rows, d)
    ensures Spent(O.TakeClaim(rows, now, x, owner, lease, token).0, d)
    ensures x == d ==> O.TakeClaim(rows, now, x, owner, lease, token).1 == None
  {
    SpentStays(rows, now, d, x, rows[d].payload, owner, lease, token, 0);
  }

  lemma ExhaustedStep(w: World, e: Event, d: Id)
    requires Outboxed(w.db.outbox, w.claims, w.rejections) && Legal(w, e) && Exhausted(w, d) && !e.ForgetOutbox?
    ensures Exhausted(Apply(w, e), d)
    ensures e.ClaimOutbox? && e.delegation == d ==> Apply(w, e).claims == w.claims
  {
    hide Spent, O.Enqueue, O.TakeClaim, O.Acknowledge, O.Reject, Authentic;
    var rows, now := w.db.outbox, w.db.now;
    if !TouchesOutbox(e) {
      OthersKeepOutbox(w, e);
      hide Apply, Legal, Outboxed;
    } else {
      hide Finish, Cancel, Cleanup, ClaimTask, Prewrite, Bind, ClaimExecution, Renew;
      match e
      case EnqueueFinish(c) => if c.delegation.Some? { SpentStays(rows, now, d, c.delegation.value, c, "", 0, "", 0); }
      case ClaimOutbox(x, owner, lease, token) =>
        SpentClaim(rows, now, d, x, owner, lease, token);
      case AckOutbox(c) => SpentStays(rows, now, d, c.delegation, c.payload, c.owner, 0, c.token, 0);
      case NackOutbox(c) => SpentStays(rows, now, d, c.delegation, c.payload, c.owner, 0, c.token, c.attempts);
    }
  }

  /** A row rejected 32 times is out of reach for good: re-enqueueing replaces its payload but keeps its
      attempts, so no worker ever claims it again; only the executor's own delete removes it. */
  lemma {:induction false} ExhaustedRowIsNeverRetried(w: World, es: seq<Event>, d: Id)
    requires Reachable(w) && LegalRun(w, es) && Exhausted(w, d)
    requires forall e :: e in es ==> !e.ForgetOutbox?
    ensures Exhausted(Exec(w, es), d)
    decreases |es|
  {
    hide Legal, Apply, Exhausted, Reachable, DbInv, Leased, Outboxed, AuthenticPayloads;
    ReachableInv(w);
    if es != [] {
      ExhaustedStep(w, es[0], d);
      ReachableStep(w, es[0]);
      ExhaustedRowIsNeverRetried(Apply(w, es[0]), es[1..], d);
    }
  }
}
