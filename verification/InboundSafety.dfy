/** Every transaction keeps the invariant. */
module InboundSafety {
  import opened Common
  import opened InboundRows
  import opened InboundProtocol
  import O = FinalizeOutbox

  // -------------------------------------------- shape of a terminal write

  /** The row a terminal writer leaves: closed, its lease gone, its proof either kept or retired. */
  ghost predicate Closed(before: Task, after: Task, status: Status)
  {
    && after == before.(status := status, leaseUntil := None, generation := after.generation, token := after.token)
    && (|| (after.generation == before.generation && after.token == before.token)
        || (after.generation == before.generation + 1 && after.token == ""))
  }

  /** At most one delegation, of run `run`, and its step go to `status`. */
  ghost predicate DelegationWrite(before: Audit, after: Audit, run: Id, status: Status, d: Option<Id>)
  {
    if d.None? then after == before
    else
      && d.value in before.delegations && before.delegations[d.value].parentRun == run
      && after.delegations == before.delegations[d.value := before.delegations[d.value].(status := status)]
      && var i := StepOf(before.steps, run, d.value);
         i < |before.steps| && after.steps == before.steps[i := before.steps[i].(status := status)]
  }

  /** One task, its run, and its delegation with its step go to `status`; nothing else moves. */
  ghost predicate TerminalWrite(db: Db, post: Db, t: Id, status: Status, d: Option<Id>)
  {
    && t in db.tasks && db.tasks[t].status == Running && Terminal(status)
    && t in post.tasks && Closed(db.tasks[t], post.tasks[t], status)
    && post.tasks == db.tasks[t := post.tasks[t]]
    && db.tasks[t].run in db.runs
    && post.runs == db.runs[db.tasks[t].run := Run(status, db.runs[db.tasks[t].run].lockVersion + 1)]
    && (db.tasks[t].delegation.Some? ==> d == db.tasks[t].delegation)
    && DelegationWrite(AuditOf(db), AuditOf(post), db.tasks[t].run, status, d)
    && post == db.(tasks := post.tasks, runs := post.runs, delegations := post.delegations, steps := post.steps)
  }

  lemma FinalizeShape(a: Audit, d: Id, step: Option<Id>, run: Id, status: Status)
    requires Paired(a.steps, a.delegations) && FinalizeDelegation(a, d, step, run, status).out == Ok
    ensures DelegationWrite(a, FinalizeDelegation(a, d, step, run, status).audit, run, status, Some(d))
  {
    hide StepIndex, StepOf;
    var i := if step.Some? then StepIndex(a.steps, step.value) else StepOf(a.steps, run, d);
    assert StepSound(a.steps, i, a.delegations);
    assert i == StepOf(a.steps, run, d);
  }

  lemma FinalizeIfAnyShape(db: Db, d: Option<Id>, step: Option<Id>, run: Id, status: Status)
    requires Paired(db.steps, db.delegations) && FinalizeIfAny(AuditOf(db), d, step, run, status).out == Ok
    ensures DelegationWrite(AuditOf(db), FinalizeIfAny(AuditOf(db), d, step, run, status).audit, run, status, d)
  {
    hide FinalizeDelegation, Paired;
    if d.Some? {
      FinalizeShape(AuditOf(db), d.value, step, run, status);
    }
  }

  lemma FinishShape(db: Db, c: Command)
    requires Paired(db.steps, db.delegations) && Uniform(c)
    requires Finish(db, c).out == Ok
    ensures TerminalWrite(db, Finish(db, c).db, c.task, c.taskStatus, db.tasks[c.task].delegation)
  {
    hide FinalizeIfAny, DelegationWrite, Paired;
    FinalizeIfAnyShape(db, db.tasks[c.task].delegation, c.step, c.run, c.delegationStatus);
  }

  lemma CancelShape(db: Db, t: Id)
    requires Paired(db.steps, db.delegations) && AllAgree(db.tasks, db.runs, db.delegations)
    requires Cancel(db, t).out == Ok && !Terminal(db.tasks[t].status)
    ensures TerminalWrite(db, Cancel(db, t).db, t, Cancelled, db.tasks[t].delegation)
  {
    hide FinalizeIfAny, DelegationWrite, Paired;
    assert Agrees(db.tasks[t], db.runs, db.delegations);
    FinalizeIfAnyShape(db, db.tasks[t].delegation, None, db.tasks[t].run, Cancelled);
  }

  lemma CleanupShape(db: Db, c: CleanupInput)
    requires Paired(db.steps, db.delegations) && AllAgree(db.tasks, db.runs, db.delegations)
    requires c.delegationStatus.None? || c.delegationStatus.value == c.status
    requires Cleanup(db, c).out == Ok
    ensures TerminalWrite(db, Cleanup(db, c).db, c.task, c.status, CleanupTarget(db.tasks[c.task], c))
  {
    hide FinalizeIfAny, DelegationWrite, Paired;
    assert Agrees(db.tasks[c.task], db.runs, db.delegations);
    FinalizeIfAnyShape(db, CleanupTarget(db.tasks[c.task], c), c.step, c.run, CleanupStatus(c));
  }

  // ----------------------------------------- a terminal write is safe

  /** Rewriting statuses moves no step. */
  lemma {:induction false} SameStepOf(a: seq<Step>, b: seq<Step>, run: Id, d: Id)
    requires |a| <= |b| && forall i :: 0 <= i < |a| ==> a[i].run == b[i].run && a[i].delegation == b[i].delegation
    ensures StepOf(a, run, d) < |a| ==> StepOf(b, run, d) == StepOf(a, run, d)
  {
    var i, j := StepOf(a, run, d), StepOf(b, run, d);
    if i < |a| {
      assert b[i].run == run && b[i].delegation == d;
    }
  }

  lemma {:induction false} SameStepIndex(a: seq<Step>, b: seq<Step>, id: Id)
    requires |a| <= |b| && forall i :: 0 <= i < |a| ==> a[i].id == b[i].id
    ensures StepIndex(a, id) < |a| ==> StepIndex(b, id) == StepIndex(a, id)
  {
    var i, j := StepIndex(a, id), StepIndex(b, id);
    if i < |a| {
      assert b[i].id == id;
    }
  }

  lemma DelegationWriteKeepsStep(before: Audit, after: Audit, run: Id, status: Status, d: Option<Id>, i: nat)
    requires i < |before.steps| && StepSound(before.steps, i, before.delegations)
    requires DelegationWrite(before, after, run, status, d)
    ensures StepSound(after.steps, i, after.delegations)
  {
    hide StepIndex, StepOf;
    SameStepIndex(before.steps, after.steps, before.steps[i].id);
    SameStepOf(before.steps, after.steps, before.steps[i].run, before.steps[i].delegation);
  }

  lemma DelegationWriteKeepsPairs(before: Audit, after: Audit, run: Id, status: Status, d: Option<Id>)
    requires Paired(before.steps, before.delegations) && DelegationWrite(before, after, run, status, d)
    ensures Paired(after.steps, after.delegations)
  {
    hide StepIndex, StepOf, StepSound;
    forall i | 0 <= i < |after.steps|
      ensures StepSound(after.steps, i, after.delegations)
    {
      DelegationWriteKeepsStep(before, after, run, status, d, i);
    }
    forall x | x in after.delegations
      ensures StepOf(after.steps, after.delegations[x].parentRun, x) < |after.steps|
    {
      SameStepOf(before.steps, after.steps, before.delegations[x].parentRun, x);
    }
  }

  lemma TerminalWriteKeepsBound(db: Db, post: Db, t: Id, status: Status, d: Option<Id>)
    requires BoundToOwnRun(db.tasks, db.delegations) && TerminalWrite(db, post, t, status, d)
    ensures BoundToOwnRun(post.tasks, post.delegations)
  {
    hide StepOf;
  }

  lemma TerminalWriteKeepsOpen(db: Db, post: Db, t: Id, status: Status, d: Option<Id>, of: map<Id, Id>)
    requires OneRunPerTask(db.tasks, db.runs, of) && OpenTogether(db.tasks, db.delegations, of)
    requires TerminalWrite(db, post, t, status, d)
    ensures OpenTogether(post.tasks, post.delegations, of)
  {
    hide StepOf;
  }

  lemma TerminalWriteAgrees(db: Db, post: Db, t: Id, status: Status, d: Option<Id>, of: map<Id, Id>)
    requires OneRunPerTask(db.tasks, db.runs, of) && BoundToOwnRun(db.tasks, db.delegations)
    requires AllAgree(db.tasks, db.runs, db.delegations) && TerminalWrite(db, post, t, status, d)
    ensures AllAgree(post.tasks, post.runs, post.delegations)
  {
    hide StepOf;
    forall u | u in post.tasks
      ensures Agrees(post.tasks[u], post.runs, post.delegations)
    {
      if u != t {
        OtherTaskAgrees(db, post, t, status, d, of, u);
      }
    }
  }

  lemma OtherTaskAgrees(db: Db, post: Db, t: Id, status: Status, d: Option<Id>, of: map<Id, Id>, u: Id)
    requires OneRunPerTask(db.tasks, db.runs, of) && BoundToOwnRun(db.tasks, db.delegations)
    requires TerminalWrite(db, post, t, status, d)
    requires u in db.tasks && u != t && Agrees(db.tasks[u], db.runs, db.delegations)
    ensures Agrees(post.tasks[u], post.runs, post.delegations)
  {
    hide StepOf, Closed;
    assert of[db.tasks[u].run] == u && of[db.tasks[t].run] == t;
  }

  /** What a task is, apart from how far it has come. */
  ghost predicate SameIdentity(a: Task, b: Task)
  {
    a.key == b.key && a.externalTask == b.externalTask && a.requestHash == b.requestHash && a.run == b.run
  }

  ghost predicate SameTasks(before: Tasks, after: Tasks)
  {
    before.Keys == after.Keys && forall t :: t in before ==> SameIdentity(before[t], after[t])
  }

  lemma IdentityStays(before: Tasks, after: Tasks, byKey: map<RequestKey, Id>, aliases: map<AliasKey, Id>)
    requires SameTasks(before, after)
    ensures Keyed(before, byKey) ==> Keyed(after, byKey)
    ensures Aliased(before, aliases) ==> Aliased(after, aliases)
  {
  }

  lemma RunsStay(before: Tasks, after: Tasks, runs: map<Id, Run>, runs': map<Id, Run>, of: map<Id, Id>)
    requires SameTasks(before, after) && runs.Keys == runs'.Keys && OneRunPerTask(before, runs, of)
    ensures OneRunPerTask(after, runs', of)
  {
  }

  lemma TerminalWriteKeepsProofs(db: Db, post: Db, t: Id, status: Status, d: Option<Id>, proofs: set<Proof>)
    requires Leased(db.tasks, proofs) && TerminalWrite(db, post, t, status, d)
    ensures Leased(post.tasks, proofs)
  {
  }

  /** A command stays authentic while bindings stay, tasks keep their runs and no step moves. */
  lemma CommandStays(db: Db, post: Db, c: Command)
    requires Authentic(db, c)
    requires c.task in post.tasks && post.tasks[c.task].run == db.tasks[c.task].run
    requires post.tasks[c.task].delegation == db.tasks[c.task].delegation
    requires |db.steps| <= |post.steps|
    requires forall i :: 0 <= i < |db.steps| ==>
               db.steps[i].id == post.steps[i].id && db.steps[i].delegation == post.steps[i].delegation
    ensures Authentic(post, c)
  {
    if c.step.Some? {
      SameStepIndex(db.steps, post.steps, c.step.value);
    }
  }

  lemma PayloadsStay(w: World, post: Db)
    requires AuthenticPayloads(w) && post.outbox == w.db.outbox
    requires forall t :: t in w.db.tasks ==>
               && t in post.tasks && post.tasks[t].run == w.db.tasks[t].run
               && (w.db.tasks[t].delegation.Some? ==> post.tasks[t].delegation == w.db.tasks[t].delegation)
    requires |w.db.steps| <= |post.steps|
    requires forall i :: 0 <= i < |w.db.steps| ==>
               w.db.steps[i].id == post.steps[i].id && w.db.steps[i].delegation == post.steps[i].delegation
    ensures forall w': World :: w'.db == post && w'.claims == w.claims ==> AuthenticPayloads(w')
  {
    forall d | d in post.outbox
      ensures Authentic(post, post.outbox[d].payload)
    {
      CommandStays(w.db, post, post.outbox[d].payload);
    }
    forall c | c in w.claims
      ensures Authentic(post, c.payload)
    {
      CommandStays(w.db, post, c.payload);
    }
  }

  lemma TerminalWriteFrame(db: Db, post: Db, t: Id, status: Status, d: Option<Id>)
    requires TerminalWrite(db, post, t, status, d)
    ensures SameTasks(db.tasks, post.tasks) && post.runs.Keys == db.runs.Keys
    ensures post.byKey == db.byKey && post.aliases == db.aliases && post.outbox == db.outbox
    ensures forall u :: u in db.tasks ==> post.tasks[u].delegation == db.tasks[u].delegation
    ensures |post.steps| == |db.steps|
    ensures forall i :: 0 <= i < |db.steps| ==>
              db.steps[i].id == post.steps[i].id && db.steps[i].delegation == post.steps[i].delegation
  {
  }

  lemma TerminalWriteKeepsPairs(db: Db, post: Db, t: Id, status: Status, d: Option<Id>)
    requires Paired(db.steps, db.delegations) && TerminalWrite(db, post, t, status, d)
    ensures Paired(post.steps, post.delegations)
  {
    hide Paired, DelegationWrite, Closed;
    DelegationWriteKeepsPairs(AuditOf(db), AuditOf(post), db.tasks[t].run, status, d);
  }

  lemma TerminalWriteKeepsDb(db: Db, post: Db, t: Id, status: Status, d: Option<Id>, of: map<Id, Id>)
    requires DbInv(db, of) && TerminalWrite(db, post, t, status, d)
    ensures DbInv(post, of)
  {
    hide Keyed, Aliased, OneRunPerTask, Paired, BoundToOwnRun, OpenTogether, AllAgree, TerminalWrite, SameTasks;
    TerminalWriteFrame(db, post, t, status, d);
    TerminalWriteKeepsPairs(db, post, t, status, d);
    TerminalWriteKeepsBound(db, post, t, status, d);
    TerminalWriteKeepsOpen(db, post, t, status, d, of);
    TerminalWriteAgrees(db, post, t, status, d, of);
    IdentityStays(db.tasks, post.tasks, db.byKey, db.aliases);
    RunsStay(db.tasks, post.tasks, db.runs, post.runs, of);
  }

  lemma TerminalWriteSafe(w: World, post: Db, t: Id, status: Status, d: Option<Id>)
    requires Inv(w) && TerminalWrite(w.db, post, t, status, d)
    ensures Inv(w.(db := post))
  {
    hide DbInv, Leased, Outboxed, AuthenticPayloads, TerminalWrite;
    TerminalWriteKeepsDb(w.db, post, t, status, d, w.preparedFor);
    TerminalWriteKeepsProofs(w.db, post, t, status, d, w.proofs);
    TerminalWriteFrame(w.db, post, t, status, d);
    PayloadsStay(w, post);
  }

  // ------------------------------------------------- the other writers

  /** Writers that touch only lease columns and first bindings of running tasks. */
  ghost predicate LeaseWrite(db: Db, post: Db)
  {
    && post == db.(tasks := post.tasks, now := post.now)
    && SameTasks(db.tasks, post.tasks)
    && forall t :: t in db.tasks ==>
         && post.tasks[t].status == db.tasks[t].status
         && (Terminal(db.tasks[t].status) ==> post.tasks[t] == db.tasks[t])
         && (db.tasks[t].delegation.Some? ==> post.tasks[t].delegation == db.tasks[t].delegation)
         && (post.tasks[t].delegation.Some? ==>
               && post.tasks[t].delegation.value in db.delegations
               && db.delegations[post.tasks[t].delegation.value].parentRun == db.tasks[t].run
               && !db.delegations[post.tasks[t].delegation.value].nested)
  }

  lemma LeaseWriteAgrees(db: Db, post: Db, of: map<Id, Id>)
    requires OpenTogether(db.tasks, db.delegations, of) && AllAgree(db.tasks, db.runs, db.delegations)
    requires LeaseWrite(db, post)
    ensures BoundToOwnRun(post.tasks, post.delegations) && OpenTogether(post.tasks, post.delegations, of)
    ensures AllAgree(post.tasks, post.runs, post.delegations)
  {
    forall t | t in post.tasks
      ensures Agrees(post.tasks[t], post.runs, post.delegations)
    {
      assert Agrees(db.tasks[t], db.runs, db.delegations);
    }
  }

  lemma LeaseWriteSafe(w: World, post: Db, proofs: set<Proof>)
    requires Inv(w) && LeaseWrite(w.db, post) && Leased(post.tasks, proofs)
    ensures Inv(w.(db := post, proofs := proofs))
  {
    hide Keyed, Aliased, OneRunPerTask, Paired, BoundToOwnRun, OpenTogether, AllAgree, Leased, Outboxed,
      AuthenticPayloads;
    LeaseWriteAgrees(w.db, post, w.preparedFor);
    IdentityStays(w.db.tasks, post.tasks, w.db.byKey, w.db.aliases);
    RunsStay(w.db.tasks, post.tasks, w.db.runs, post.runs, w.preparedFor);
    PayloadsStay(w, post);
  }

  lemma ClaimLeaseProofs(tasks: Tasks, proofs: set<Proof>, t: Id, owner: string, until: int, token: string)
    requires Leased(tasks, proofs) && t in tasks
    requires token != "" && forall p :: p in proofs ==> p.token != token
    ensures var g := tasks[t].generation + 1;
            Leased(tasks[t := tasks[t].(generation := g, owner := owner, token := token, leaseUntil := Some(until))],
                   proofs + {Proof(t, owner, token, g)})
  {
  }

  lemma ClaimLeaseSafe(w: World, e: Event)
    requires Inv(w) && Legal(w, e) && e.ClaimLease?
    ensures Inv(Apply(w, e))
  {
    hide Keyed, Aliased, OneRunPerTask, Paired, OpenTogether, AllAgree, Leased, Outboxed, AuthenticPayloads;
    var tx := ClaimExecution(w.db, e.task, e.owner, e.lease, e.token);
    if tx.owned {
      ClaimLeaseProofs(w.db.tasks, w.proofs, e.task, O.EffectiveOwner(e.owner), w.db.now + LeaseLength(e.lease),
                       e.token);
      LeaseWriteSafe(w, tx.db, w.proofs + {Proof(e.task, O.EffectiveOwner(e.owner), e.token, tx.generation)});
    }
  }

  /** One running task gets a new lease end or its first binding. */
  lemma TouchIsLeaseWrite(db: Db, t: Id, after: Task)
    requires BoundToOwnRun(db.tasks, db.delegations)
    requires t in db.tasks && db.tasks[t].status == Running
    requires after == db.tasks[t].(leaseUntil := after.leaseUntil, delegation := after.delegation)
    requires db.tasks[t].delegation.Some? ==> after.delegation == db.tasks[t].delegation
    requires after.delegation.Some? ==>
               after.delegation.value in db.delegations
               && db.delegations[after.delegation.value].parentRun == db.tasks[t].run
               && !db.delegations[after.delegation.value].nested
    ensures LeaseWrite(db, db.(tasks := db.tasks[t := after]))
  {
  }

  lemma TouchKeepsProofs(tasks: Tasks, proofs: set<Proof>, t: Id, after: Task)
    requires Leased(tasks, proofs) && t in tasks
    requires after == tasks[t].(leaseUntil := after.leaseUntil, delegation := after.delegation)
    requires after.leaseUntil.Some? ==> after.token != ""
    ensures Leased(tasks[t := after], proofs)
  {
  }

  lemma TouchSafe(w: World, t: Id, after: Task)
    requires Inv(w) && t in w.db.tasks && w.db.tasks[t].status == Running
    requires after == w.db.tasks[t].(leaseUntil := after.leaseUntil, delegation := after.delegation)
    requires after.leaseUntil.Some? ==> after.token != ""
    requires w.db.tasks[t].delegation.Some? ==> after.delegation == w.db.tasks[t].delegation
    requires after.delegation.Some? ==>
               after.delegation.value in w.db.delegations
               && w.db.delegations[after.delegation.value].parentRun == w.db.tasks[t].run
               && !w.db.delegations[after.delegation.value].nested
    ensures Inv(w.(db := w.db.(tasks := w.db.tasks[t := after])))
  {
    hide Keyed, Aliased, OneRunPerTask, Paired, BoundToOwnRun, OpenTogether, AllAgree, Leased, Outboxed,
      AuthenticPayloads, LeaseWrite;
    TouchIsLeaseWrite(w.db, t, after);
    TouchKeepsProofs(w.db.tasks, w.proofs, t, after);
    LeaseWriteSafe(w, w.db.(tasks := w.db.tasks[t := after]), w.proofs);
  }

  lemma BoundOf(w: World, t: Id)
    requires Inv(w) && t in w.db.tasks && w.db.tasks[t].delegation.Some?
    ensures var d := w.db.tasks[t].delegation.value;
            d in w.db.delegations && w.db.delegations[d].parentRun == w.db.tasks[t].run && !w.db.delegations[d].nested
  {
    hide Keyed, Aliased, OneRunPerTask, Paired, OpenTogether, AllAgree, Leased, Outboxed, AuthenticPayloads;
  }

  lemma RenewSafe(w: World, t: Id, owner: string, token: string, lease: int)
    requires Inv(w)
    ensures Inv(w.(db := Renew(w.db, t, owner, token, lease).db))
  {
    hide DbInv, Leased, Outboxed, AuthenticPayloads;
    if Renew(w.db, t, owner, token, lease).out == Ok {
      if w.db.tasks[t].delegation.Some? {
        BoundOf(w, t);
      }
      TouchSafe(w, t, w.db.tasks[t].(leaseUntil := Some(w.db.now + LeaseLength(lease))));
    }
  }

  lemma BindSafe(w: World, t: Id, d: Id)
    requires Inv(w)
    requires t in w.db.tasks ==>
               && d in w.db.delegations && w.db.delegations[d].parentRun == w.db.tasks[t].run
               && !w.db.delegations[d].nested
    ensures Inv(w.(db := Bind(w.db, t, d).db))
  {
    hide DbInv, Outboxed, AuthenticPayloads;
    if Bind(w.db, t, d).db != w.db {
      TouchSafe(w, t, w.db.tasks[t].(delegation := Some(d)));
    }
  }

  lemma TickSafe(w: World, elapsed: nat)
    requires Inv(w)
    ensures Inv(w.(db := w.db.(now := w.db.now + elapsed)))
  {
    hide Keyed, Aliased, OneRunPerTask, Paired, OpenTogether, AllAgree, Leased, Outboxed, AuthenticPayloads;
    LeaseWriteSafe(w, w.db.(now := w.db.now + elapsed), w.proofs);
  }

  // ------------------------------------------------------------ outbox

  /** Outbox writers leave every other table alone. */
  lemma OutboxWriteSafe(w: World, post: World)
    requires Inv(w)
    requires post == w.(db := w.db.(outbox := post.db.outbox), claims := post.claims, rejections := post.rejections)
    requires Outboxed(post.db.outbox, post.claims, post.rejections)
    requires forall d :: d in post.db.outbox ==> Authentic(w.db, post.db.outbox[d].payload)
    requires forall c :: c in post.claims ==> Authentic(w.db, c.payload)
    ensures Inv(post)
  {
    hide Keyed, Aliased, OneRunPerTask, Paired, BoundToOwnRun, OpenTogether, AllAgree, Leased, Outboxed;
    assert forall c :: Authentic(w.db, c) ==> Authentic(post.db, c);
  }

  /** Whoever can still act on a row is its latest claimant, with its present payload. */
  lemma ClaimIsCurrent(
      outbox: O.Rows<Command>, claims: set<O.Claim<Command>>, rejections: map<Id, nat>, c: O.Claim<Command>)
    requires Outboxed(outbox, claims, rejections)
    requires c in claims && O.HoldsClaim(outbox, c.delegation, c.owner, c.token)
    ensures outbox[c.delegation].payload == c.payload
    ensures outbox[c.delegation].attempts == c.attempts < O.MAX_ATTEMPTS
  {
    assert RowSound(c.delegation, outbox[c.delegation], claims, rejections);
  }

  lemma EnqueueSafe(w: World, c: Command)
    requires Legal(w, EnqueueFinish(c)) && Inv(w)
    ensures Inv(Apply(w, EnqueueFinish(c)))
  {
    hide Keyed, Aliased, OneRunPerTask, Paired, BoundToOwnRun, OpenTogether, AllAgree, Leased, Outboxed, Finish,
      Cancel, Cleanup;
    EnqueueOutboxed(w.db.outbox, w.claims, w.rejections, w.db.now, c);
    hide DbInv;
    OutboxWriteSafe(w, Apply(w, EnqueueFinish(c)));
  }

  lemma EnqueueOutboxed(
      outbox: O.Rows<Command>, claims: set<O.Claim<Command>>, rejections: map<Id, nat>, now: int, c: Command)
    requires Outboxed(outbox, claims, rejections) && c.delegation.Some?
    ensures Outboxed(O.Enqueue(outbox, now, c.delegation.value, c), claims,
                     if c.delegation.value in outbox then rejections else rejections[c.delegation.value := 0])
  {
  }

  lemma ClaimOutboxSafe(w: World, d: Id, owner: string, lease: int, token: string)
    requires Inv(w) && Legal(w, ClaimOutbox(d, owner, lease, token))
    ensures Inv(Apply(w, ClaimOutbox(d, owner, lease, token)))
  {
    hide DbInv, Leased, Outboxed, Authentic, O.EffectiveLease;
    TakenOutboxed(w.db.outbox, w.claims, w.rejections, w.db.now, d, owner, lease, token);
    OutboxWriteSafe(w, Apply(w, ClaimOutbox(d, owner, lease, token)));
  }

  lemma TakenOutboxed(outbox: O.Rows<Command>, claims: set<O.Claim<Command>>, rejections: map<Id, nat>, now: int,
                      d: Id, owner: string, lease: int, token: string)
    requires Outboxed(outbox, claims, rejections) && token != "" && forall c :: c in claims ==> c.token != token
    ensures var taken := O.TakeClaim(outbox, now, d, owner, lease, token);
            Outboxed(taken.0, if taken.1.Some? then claims + {taken.1.value} else claims, rejections)
  {
    hide O.EffectiveLease;
  }

  lemma AckSafe(w: World, c: O.Claim<Command>)
    requires Legal(w, AckOutbox(c)) && Inv(w)
    ensures Inv(Apply(w, AckOutbox(c)))
  {
    hide Keyed, Aliased, OneRunPerTask, Paired, BoundToOwnRun, OpenTogether, AllAgree, Leased;
    OutboxWriteSafe(w, Apply(w, AckOutbox(c)));
  }

  lemma NackSafe(w: World, c: O.Claim<Command>)
    requires Legal(w, NackOutbox(c)) && Inv(w)
    ensures Inv(Apply(w, NackOutbox(c)))
  {
    hide DbInv, Leased, Outboxed, Authentic, O.Backoff;
    RejectedOutboxed(w.db.outbox, w.claims, w.rejections, w.db.now, c);
    OutboxWriteSafe(w, Apply(w, NackOutbox(c)));
  }

  lemma RejectedOutboxed(outbox: O.Rows<Command>, claims: set<O.Claim<Command>>, rejections: map<Id, nat>, now: int,
                         c: O.Claim<Command>)
    requires Outboxed(outbox, claims, rejections) && c in claims
    ensures Outboxed(O.Reject(outbox, now, c.delegation, c.owner, c.token, c.attempts), claims,
                     if O.HoldsClaim(outbox, c.delegation, c.owner, c.token) && c.delegation in rejections
                     then rejections[c.delegation := rejections[c.delegation] + 1] else rejections)
  {
    hide O.Backoff;
    if O.HoldsClaim(outbox, c.delegation, c.owner, c.token) {
      ClaimIsCurrent(outbox, claims, rejections, c);
    }
  }

  lemma ForgetSafe(w: World, t: Id)
    requires Inv(w) && Legal(w, ForgetOutbox(t))
    ensures Inv(Apply(w, ForgetOutbox(t)))
  {
    hide Keyed, Aliased, OneRunPerTask, Paired, BoundToOwnRun, OpenTogether, AllAgree, Leased;
    OutboxWriteSafe(w, Apply(w, ForgetOutbox(t)));
  }

  // ------------------------------------------- claims and delegations

  lemma {:induction false} NewStep(steps: seq<Step>, s: Step)
    requires StepIndex(steps, s.id) == |steps|
    requires StepOf(steps, s.run, s.delegation) == |steps|
    ensures StepIndex(steps + [s], s.id) == |steps| && StepOf(steps + [s], s.run, s.delegation) == |steps|
  {
    var more := steps + [s];
    assert more[|steps|] == s;
    assert forall i :: 0 <= i < |steps| ==> more[i] == steps[i];
  }

  lemma NewDelegationPairs(
      steps: seq<Step>, delegations: Delegations, d: Id, run: Id, key: string, nested: bool, step: Id)
    requires Paired(steps, delegations) && d != "" && d !in delegations && StepIndex(steps, step) == |steps|
    ensures Paired(steps + [Step(step, run, d, Running)], delegations[d := Delegation(run, key, nested, Running)])
  {
    var s := Step(step, run, d, Running);
    var more, dels := steps + [s], delegations[d := Delegation(run, key, nested, Running)];
    assert StepOf(steps, run, d) == |steps| by {
      var i := StepOf(steps, run, d);
      assert i < |steps| ==> StepSound(steps, i, delegations);
    }
    NewStep(steps, s);
    forall i | 0 <= i < |more|
      ensures StepSound(more, i, dels)
    {
      if i < |steps| {
        OldStepStays(steps, delegations, s, i, Delegation(run, key, nested, Running));
      }
    }
    forall x | x in dels
      ensures x != "" && StepOf(more, dels[x].parentRun, x) < |more|
    {
      if x != d {
        SameStepOf(steps, more, dels[x].parentRun, x);
      }
    }
  }

  lemma OldStepStays(steps: seq<Step>, delegations: Delegations, s: Step, i: nat, added: Delegation)
    requires i < |steps| && StepSound(steps, i, delegations) && s.delegation !in delegations
    ensures StepSound(steps + [s], i, delegations[s.delegation := added])
  {
    var more := steps + [s];
    assert forall j :: 0 <= j < |steps| ==> more[j] == steps[j];
    SameStepIndex(steps, more, steps[i].id);
    SameStepOf(steps, more, steps[i].run, steps[i].delegation);
  }

  lemma NewDelegationAgrees(db: Db, d: Id, run: Id, key: string, nested: bool, of: map<Id, Id>)
    requires OneRunPerTask(db.tasks, db.runs, of) && BoundToOwnRun(db.tasks, db.delegations)
    requires OpenTogether(db.tasks, db.delegations, of) && AllAgree(db.tasks, db.runs, db.delegations)
    requires run in db.runs && d !in db.delegations
    ensures var dels := db.delegations[d := Delegation(run, key, nested, Running)];
            BoundToOwnRun(db.tasks, dels) && OpenTogether(db.tasks, dels, of) && AllAgree(db.tasks, db.runs, dels)
  {
    var dels := db.delegations[d := Delegation(run, key, nested, Running)];
    assert of[run] in db.tasks;
    forall u | u in db.tasks
      ensures Agrees(db.tasks[u], db.runs, dels)
    {
      assert Agrees(db.tasks[u], db.runs, db.delegations);
    }
  }

  lemma PrewriteSafe(w: World, run: Id, d: Id, step: Id, key: string, nested: bool)
    requires Inv(w) && d != ""
    ensures Inv(w.(db := Prewrite(w.db, run, d, step, key, nested).db))
  {
    hide Keyed, Aliased, OneRunPerTask, Paired, BoundToOwnRun, OpenTogether, AllAgree, Leased, Outboxed,
      AuthenticPayloads;
    var post := Prewrite(w.db, run, d, step, key, nested).db;
    if post != w.db {
      NewDelegationPairs(w.db.steps, w.db.delegations, d, run, key, nested, step);
      NewDelegationAgrees(w.db, d, run, key, nested, w.preparedFor);
      PayloadsStay(w, post);
    }
  }

  /** Settling a nested delegation moves nothing a task is bound to. */
  lemma NestedWriteAgrees(db: Db, after: Audit, run: Id, status: Status, d: Id, of: map<Id, Id>)
    requires BoundToOwnRun(db.tasks, db.delegations) && OpenTogether(db.tasks, db.delegations, of)
    requires AllAgree(db.tasks, db.runs, db.delegations)
    requires DelegationWrite(AuditOf(db), after, run, status, Some(d)) && db.delegations[d].nested
    ensures BoundToOwnRun(db.tasks, after.delegations) && OpenTogether(db.tasks, after.delegations, of)
    ensures AllAgree(db.tasks, db.runs, after.delegations)
  {
    hide StepOf;
    forall u | u in db.tasks
      ensures Agrees(db.tasks[u], db.runs, after.delegations)
    {
      assert Agrees(db.tasks[u], db.runs, db.delegations);
    }
  }

  lemma NestedFinalizeSafe(w: World, d: Id, step: Option<Id>, status: Status)
    requires Inv(w) && (d in w.db.delegations ==> w.db.delegations[d].nested)
    ensures Inv(w.(db := FinalizeUnfenced(w.db, d, step, status).db))
  {
    hide Keyed, Aliased, OneRunPerTask, Paired, BoundToOwnRun, OpenTogether, AllAgree, Leased, Outboxed,
      AuthenticPayloads, FinalizeDelegation;
    var tx := FinalizeUnfenced(w.db, d, step, status);
    if tx.out == Ok {
      var run := w.db.delegations[d].parentRun;
      FinalizeShape(AuditOf(w.db), d, step, run, status);
      DelegationWriteKeepsPairs(AuditOf(w.db), AuditOf(tx.db), run, status, Some(d));
      NestedWriteAgrees(w.db, AuditOf(tx.db), run, status, d, w.preparedFor);
      PayloadsStay(w, tx.db);
    }
  }

  lemma NewTaskKeyed(db: Db, c: ClaimInput, run: Id)
    requires Keyed(db.tasks, db.byKey) && c.key !in db.byKey && c.newTask !in db.tasks
    ensures var post := InsertAuthority(db, c, run); Keyed(post.tasks, post.byKey)
  {
  }

  lemma NewTaskRun(db: Db, c: ClaimInput, run: Id, of: map<Id, Id>)
    requires OneRunPerTask(db.tasks, db.runs, of)
    requires c.newTask != "" && c.newTask !in db.tasks && run != "" && run !in db.runs
    ensures var post := InsertAuthority(db, c, run); OneRunPerTask(post.tasks, post.runs, of[run := c.newTask])
  {
  }

  lemma NewTaskAgrees(db: Db, c: ClaimInput, run: Id)
    requires AllAgree(db.tasks, db.runs, db.delegations) && BoundToOwnRun(db.tasks, db.delegations)
    requires c.newTask !in db.tasks && run !in db.runs
    ensures var post := InsertAuthority(db, c, run);
            AllAgree(post.tasks, post.runs, db.delegations) && BoundToOwnRun(post.tasks, db.delegations)
  {
    var post := InsertAuthority(db, c, run);
    forall u | u in post.tasks
      ensures Agrees(post.tasks[u], post.runs, db.delegations)
    {
      if u != c.newTask {
        assert Agrees(db.tasks[u], db.runs, db.delegations);
      }
    }
  }

  lemma NewTaskOpen(tasks: Tasks, delegations: Delegations, of: map<Id, Id>, t: Id, task: Task)
    requires OpenTogether(tasks, delegations, of) && t !in tasks
    requires forall d :: d in delegations ==> delegations[d].parentRun != task.run
    ensures OpenTogether(tasks[t := task], delegations, of[task.run := t])
  {
  }

  lemma NewRunIsUnused(db: Db, of: map<Id, Id>, run: Id)
    requires OneRunPerTask(db.tasks, db.runs, of) && OpenTogether(db.tasks, db.delegations, of) && run !in db.runs
    ensures forall d :: d in db.delegations ==> db.delegations[d].parentRun != run
  {
  }

  lemma NewTaskAliased(tasks: Tasks, aliases: map<AliasKey, Id>, t: Id, task: Task)
    requires Aliased(tasks, aliases) && t !in tasks
    requires RegisterAlias(aliases, task.key.scope, task.externalTask, t).out == Ok
    ensures Aliased(tasks[t := task], RegisterAlias(aliases, task.key.scope, task.externalTask, t).aliases)
  {
  }

  lemma NewTaskProofs(tasks: Tasks, proofs: set<Proof>, t: Id, task: Task)
    requires Leased(tasks, proofs) && t !in tasks && task.token == "" && task.leaseUntil.None?
    ensures Leased(tasks[t := task], proofs)
  {
  }

  lemma ReplayAliased(tasks: Tasks, aliases: map<AliasKey, Id>, scope: Scope, ext: string, t: Id)
    requires Aliased(tasks, aliases) && t in tasks && tasks[t].key.scope == scope
    ensures Aliased(tasks, RegisterAlias(aliases, scope, ext, t).aliases)
  {
  }

  lemma ReplaySafe(w: World, scope: Scope, ext: string, t: Id)
    requires Inv(w) && t in w.db.tasks && w.db.tasks[t].key.scope == scope
    ensures Inv(w.(db := w.db.(aliases := RegisterAlias(w.db.aliases, scope, ext, t).aliases)))
  {
    hide Keyed, Aliased, OneRunPerTask, Paired, BoundToOwnRun, OpenTogether, AllAgree, Leased, Outboxed,
      AuthenticPayloads;
    ReplayAliased(w.db.tasks, w.db.aliases, scope, ext, t);
    PayloadsStay(w, w.db.(aliases := RegisterAlias(w.db.aliases, scope, ext, t).aliases));
  }

  lemma FirstClaimSafe(w: World, c: ClaimInput, run: Id, aliases: map<AliasKey, Id>)
    requires Inv(w) && c.newTask != "" && c.newTask !in w.db.tasks && c.key !in w.db.byKey
    requires run != "" && run !in w.db.runs
    requires RegisterAlias(w.db.aliases, c.key.scope, c.externalTask, c.newTask) == AliasTx(Ok, aliases)
    ensures Inv(w.(db := InsertAuthority(w.db, c, run).(aliases := aliases),
                   preparedFor := w.preparedFor[run := c.newTask]))
  {
    hide Keyed, Aliased, OneRunPerTask, Paired, BoundToOwnRun, OpenTogether, AllAgree, Leased, Outboxed,
      AuthenticPayloads, RegisterAlias;
    NewTaskKeyed(w.db, c, run);
    NewTaskRun(w.db, c, run, w.preparedFor);
    NewTaskAgrees(w.db, c, run);
    NewRunIsUnused(w.db, w.preparedFor, run);
    NewTaskOpen(w.db.tasks, w.db.delegations, w.preparedFor, c.newTask, FreshTask(c, run));
    NewTaskAliased(w.db.tasks, w.db.aliases, c.newTask, FreshTask(c, run));
    NewTaskProofs(w.db.tasks, w.proofs, c.newTask, FreshTask(c, run));
    PayloadsStay(w, InsertAuthority(w.db, c, run).(aliases := aliases));
  }

  lemma ClaimRequestSafe(w: World, c: ClaimInput)
    requires Inv(w) && c.newTask != ""
    ensures Inv(Apply(w, ClaimRequest(c)))
  {
    hide Aliased, OneRunPerTask, Paired, BoundToOwnRun, OpenTogether, AllAgree, Leased, Outboxed, AuthenticPayloads,
      RegisterAlias, InsertAuthority;
    var tx := ClaimTask(w.db, c);
    if tx.out == Ok && tx.replay {
      ReplaySafe(w, c.key.scope, c.externalTask, w.db.byKey[c.key]);
    } else if tx.out == Ok {
      var reg := RegisterAlias(w.db.aliases, c.key.scope, c.externalTask, c.newTask);
      FirstClaimSafe(w, c, c.prepared.value, reg.aliases);
    }
  }

  // ------------------------------------------------------- every event

  lemma FinishSafe(w: World, c: Command)
    requires Inv(w) && Uniform(c)
    ensures Inv(w.(db := Finish(w.db, c).db))
  {
    hide Keyed, Aliased, OneRunPerTask, Paired, BoundToOwnRun, OpenTogether, AllAgree, Leased, Outboxed,
      AuthenticPayloads;
    if Finish(w.db, c).out == Ok {
      FinishShape(w.db, c);
      TerminalWriteSafe(w, Finish(w.db, c).db, c.task, c.taskStatus, w.db.tasks[c.task].delegation);
    }
  }

  lemma CancelSafe(w: World, t: Id)
    requires Inv(w)
    ensures Inv(w.(db := Cancel(w.db, t).db))
  {
    hide Keyed, Aliased, OneRunPerTask, Paired, BoundToOwnRun, OpenTogether, AllAgree, Leased, Outboxed,
      AuthenticPayloads;
    if Cancel(w.db, t).out == Ok && !Terminal(w.db.tasks[t].status) {
      CancelShape(w.db, t);
      TerminalWriteSafe(w, Cancel(w.db, t).db, t, Cancelled, w.db.tasks[t].delegation);
    }
  }

  lemma CleanupSafe(w: World, c: CleanupInput)
    requires Inv(w) && (c.delegationStatus.None? || c.delegationStatus.value == c.status)
    ensures Inv(w.(db := Cleanup(w.db, c).db))
  {
    hide Keyed, Aliased, OneRunPerTask, Paired, BoundToOwnRun, OpenTogether, AllAgree, Leased, Outboxed,
      AuthenticPayloads;
    if Cleanup(w.db, c).out == Ok {
      CleanupShape(w.db, c);
      TerminalWriteSafe(w, Cleanup(w.db, c).db, c.task, c.status, CleanupTarget(w.db.tasks[c.task], c));
    }
  }

  /** Every legal event keeps the invariant. */
  lemma StepSafe(w: World, e: Event)
    requires Inv(w) && Legal(w, e)
    ensures Inv(Apply(w, e))
  {
    hide Inv;
    match e
    case ClaimRequest(c) => ClaimRequestSafe(w, c);
    case PrewriteDelegation(t, d, s, key) => PrewriteSafe(w, w.db.tasks[t].run, d, s, key, false);
    case NestedPrewrite(run, d, s, key) => PrewriteSafe(w, run, d, s, key, true);
    case NestedFinalize(d, s, status) => NestedFinalizeSafe(w, d, s, status);
    case BindDelegation(t, d) => BindSafe(w, t, d);
    case ClaimLease(_, _, _, _) => ClaimLeaseSafe(w, e);
    case RenewLease(t, owner, token, lease) => RenewSafe(w, t, owner, token, lease);
    case FinishTask(c) => FinishSafe(w, c);
    case CancelTask(t) => CancelSafe(w, t);
    case CleanupTask(c) => CleanupSafe(w, c);
    case EnqueueFinish(c) => EnqueueSafe(w, c);
    case ClaimOutbox(d, owner, lease, token) => ClaimOutboxSafe(w, d, owner, lease, token);
    case AckOutbox(c) => AckSafe(w, c);
    case NackOutbox(c) => NackSafe(w, c);
    case ForgetOutbox(t) => ForgetSafe(w, t);
    case Tick(elapsed) => TickSafe(w, elapsed);
  }

  /** The invariant holds in every state of every run. */
  lemma {:induction false} RunSafe(w: World, es: seq<Event>)
    requires Inv(w) && LegalRun(w, es)
    ensures Inv(Exec(w, es))
    decreases |es|
  {
    hide Inv;
    if es != [] {
      StepSafe(w, es[0]);
      RunSafe(Apply(w, es[0]), es[1..]);
    }
  }

  lemma StartSafe()
    ensures Inv(START)
  {
  }
}
