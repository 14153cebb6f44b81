/** That the inbound transactions do what they are called for, exactly when they should. */
module InboundWorks {
  import opened Common
  import opened InboundRows
  import opened InboundProtocol
  import opened InboundTheorems
  import opened InboundLimits
  import O = FinalizeOutbox

  // ------------------------------------------------- cancel and cleanup

  lemma CancelCommits(db: Db, t: Id)
    requires Paired(db.steps, db.delegations) && t != "" && t in db.tasks && db.tasks[t].status == Running
    requires db.tasks[t].run in db.runs && db.runs[db.tasks[t].run].status == Running
    requires db.tasks[t].delegation.Some? ==>
               var d := db.tasks[t].delegation.value;
               && d in db.delegations && db.delegations[d].status == Running
               && db.delegations[d].parentRun == db.tasks[t].run
    ensures Cancel(db, t).out == Ok && t in Cancel(db, t).db.tasks && Cancel(db, t).db.tasks[t].status == Cancelled
  {
    hide FinalizeDelegation, Paired;
    if db.tasks[t].delegation.Some? {
      FinalizeSucceeds(AuditOf(db), db.tasks[t].delegation.value, None, Cancelled);
    }
  }

  lemma AgreedAfter(w: World, e: Event, t: Id, status: Status)
    requires Reachable(w) && Legal(w, e)
    requires t in Apply(w, e).db.tasks && Apply(w, e).db.tasks[t].status == status
    ensures FourObjects(Apply(w, e).db, t, status)
  {
    hide Reachable, Inv, FourObjects, Apply, Legal;
    ReachableStep(w, e);
    ReachableInv(Apply(w, e));
    InvGivesAgreement(Apply(w, e), t);
  }

  /** In every reachable state cancelling a running task, bound or not, leased or not, succeeds and leaves its task,
      run, delegation and step cancelled together. */
  lemma CancelWorks(w: World, t: Id)
    requires Reachable(w) && t in w.db.tasks && w.db.tasks[t].status == Running
    ensures Cancel(w.db, t).out == Ok && FourObjects(Cancel(w.db, t).db, t, Cancelled)
  {
    hide Reachable, Inv, FourObjects, Cancel, Paired;
    ReachableInv(w);
    TaskIdNonEmpty(w, t);
    OpenTaskRows(w, t);
    PairedNow(w);
    CancelCommits(w.db, t);
    AgreedAfter(w, CancelTask(t), t, Cancelled);
  }

  /** Nobody passes the held check for the task. */
  ghost predicate Unheld(db: Db, t: Id)
  {
    forall p: Proof :: p.task == t ==> !Held(db, p)
  }

  lemma UnheldIsNoLiveLease(w: World, t: Id)
    requires Inv(w) && t in w.db.tasks && w.db.tasks[t].status == Running
    ensures Unheld(w.db, t) <==> Reclaimable(w.db.tasks[t], w.db.now)
    ensures Unheld(w.db, t) <==> Unowned(w.db.tasks[t], w.db.now)
  {
    hide DbInv, Outboxed, AuthenticPayloads;
    var task := w.db.tasks[t];
    var p := Proof(t, task.owner, task.token, task.generation);
    assert Held(w.db, p) <==> task.token != "" && LeaseLive(task, w.db.now);
  }

  /** The delegation a cleanup of this task would take along, if any, is the gateway's own of its run. */
  ghost predicate Suits(db: Db, c: CleanupInput)
  {
    && c.task in db.tasks && c.run == db.tasks[c.task].run && Terminal(c.status)
    && (c.delegation.Some? && db.tasks[c.task].delegation.Some? ==> c.delegation == db.tasks[c.task].delegation)
    && var d := if db.tasks[c.task].delegation.Some? then db.tasks[c.task].delegation else c.delegation;
       d.Some? ==>
         && d.value in db.delegations && db.delegations[d.value].parentRun == c.run && !db.delegations[d.value].nested
         && NamesStep(db, d.value, c.step)
  }

  lemma CleanupCommits(db: Db, c: CleanupInput)
    requires Paired(db.steps, db.delegations) && Suits(db, c) && c.task != "" && c.run != ""
    requires c.delegationStatus.None? || c.delegationStatus.value == c.status
    requires db.tasks[c.task].status == Running && c.run in db.runs && db.runs[c.run].status == Running
    requires var d := CleanupTarget(db.tasks[c.task], c); d.Some? ==> db.delegations[d.value].status == Running
    ensures Cleanup(db, c).out == if Unowned(db.tasks[c.task], db.now) then Ok else Conflict
    ensures Cleanup(db, c).out == Ok ==>
              c.task in Cleanup(db, c).db.tasks && Cleanup(db, c).db.tasks[c.task].status == c.status
    ensures var d, post := CleanupTarget(db.tasks[c.task], c), Cleanup(db, c);
            post.out == Ok && d.Some? ==>
              d.value in post.db.delegations && post.db.delegations[d.value].status == c.status
  {
    hide FinalizeDelegation, Paired;
    var d := CleanupTarget(db.tasks[c.task], c);
    if d.Some? {
      FinalizeSucceeds(AuditOf(db), d.value, c.step, c.status);
      FinalizeSetsDelegation(AuditOf(db), d.value, c.step, c.run, c.status);
    }
  }

  lemma OwnDelegationRuns(w: World, t: Id, d: Id)
    requires Inv(w) && t in w.db.tasks && w.db.tasks[t].status == Running
    requires d in w.db.delegations && w.db.delegations[d].parentRun == w.db.tasks[t].run && !w.db.delegations[d].nested
    ensures w.db.delegations[d].status == Running
  {
    hide Keyed, Aliased, Paired, BoundToOwnRun, AllAgree, Leased, Outboxed, AuthenticPayloads;
    assert w.preparedFor[w.db.tasks[t].run] == t;
  }

  /** In every reachable state cleaning up a running task, bound or not, succeeds exactly when nobody holds its lease,
      and then all four objects are in the given status. */
  lemma CleanupExactly(w: World, c: CleanupInput)
    requires Reachable(w) && Suits(w.db, c) && w.db.tasks[c.task].status == Running
    requires c.delegationStatus.None? || c.delegationStatus.value == c.status
    ensures Cleanup(w.db, c).out == if Unheld(w.db, c.task) then Ok else Conflict
    ensures Cleanup(w.db, c).out == Ok ==> FourObjects(Cleanup(w.db, c).db, c.task, c.status)
    ensures var post := Cleanup(w.db, c);
            post.out == Ok && w.db.tasks[c.task].delegation == None && c.delegation.Some? ==>
              && c.delegation.value in post.db.delegations
              && post.db.delegations[c.delegation.value].status == c.status
  {
    hide Reachable, Inv, FourObjects, Cleanup, Paired, Unheld, Unowned;
    ReachableInv(w);
    TaskIdNonEmpty(w, c.task);
    OpenTaskRows(w, c.task);
    PairedNow(w);
    UnheldIsNoLiveLease(w, c.task);
    var d := CleanupTarget(w.db.tasks[c.task], c);
    if d.Some? {
      OwnDelegationRuns(w, c.task, d.value);
    }
    CleanupCommits(w.db, c);
    if Cleanup(w.db, c).out == Ok {
      AgreedAfter(w, CleanupTask(c), c.task, c.status);
    }
  }

  /** No lease was ever given, or the last one is spent or over. */
  predicate Abandoned(t: Task, now: int)
  {
    t.generation == 0 || t.token == "" || t.leaseUntil == None || t.leaseUntil.value < now
  }

  /** Cancel and cleanup also go through, in any database, over a run that is still pending or was already put in their
      status by someone else, and only over such runs; a run already there keeps its lock version. */
  lemma ClosersTolerateClosedRuns(db: Db, t: Id, c: CleanupInput)
    requires t != "" && t in db.tasks && db.tasks[t].status == Running && db.tasks[t].delegation == None
    requires c.task == t && c.run == db.tasks[t].run != "" && c.delegation == None && Terminal(c.status)
    requires c.run in db.runs
    ensures var run, post := db.runs[c.run], Cancel(db, t);
            && (post.out == Ok <==> run.status in {Running, Pending, Cancelled})
            && (post.out == Ok ==>
                  && c.run in post.db.runs && post.db.runs[c.run].status == Cancelled
                  && post.db.runs[c.run].lockVersion == run.lockVersion + if run.status == Cancelled then 0 else 1)
    ensures var run, post := db.runs[c.run], Cleanup(db, c);
            && (post.out == Ok <==> Abandoned(db.tasks[t], db.now) && run.status in {Running, Pending, c.status})
            && (post.out == Ok ==>
                  && c.run in post.db.runs && post.db.runs[c.run].status == c.status
                  && post.db.runs[c.run].lockVersion == run.lockVersion + if run.status == c.status then 0 else 1)
  {
    CancelOverRun(db, t);
    CleanupRunExactly(db.runs, c);
    hide Cancel, CleanupRun;
  }

  lemma CleanupRunExactly(runs: map<Id, Run>, c: CleanupInput)
    requires c.run in runs && Terminal(c.status)
    ensures var run, post := runs[c.run], CleanupRun(runs, c);
            && (post.out == Ok <==> run.status in {Running, Pending, c.status})
            && (post.out == Ok ==>
                  && c.run in post.runs && post.runs[c.run].status == c.status
                  && post.runs[c.run].lockVersion == run.lockVersion + if run.status == c.status then 0 else 1)
  {
  }

  /** A cleanup that commits, in any database, closes the task it names and the delegation bound to it or, with none
      bound, the one named; naming a delegation other than the bound one is refused. The delegation may be given a
      status of its own. */
  lemma CleanupWrites(db: Db, c: CleanupInput)
    requires c.task in db.tasks && Cleanup(db, c).out == Ok
    ensures var t, post := db.tasks[c.task], Cleanup(db, c).db;
            && c.task in post.tasks && post.tasks[c.task].status == c.status && t.run == c.run
            && (t.delegation.Some? && c.delegation.Some? ==> t.delegation == c.delegation)
            && var d := if t.delegation.Some? then t.delegation else c.delegation;
            && (d == None ==> post.delegations == db.delegations && post.steps == db.steps)
            && (d.Some? ==>
                  && d.value in db.delegations && db.delegations[d.value].parentRun == c.run
                  && post.delegations == db.delegations[d.value := db.delegations[d.value].(
                         status := if c.delegationStatus.Some? then c.delegationStatus.value else c.status)])
  {
    hide CleanupRun, StepOf, StepIndex;
  }

  lemma CancelOverRun(db: Db, t: Id)
    requires t != "" && t in db.tasks && db.tasks[t].status == Running && db.tasks[t].delegation == None
    requires db.tasks[t].run in db.runs
    ensures var r, post := db.tasks[t].run, Cancel(db, t);
            && (post.out == Ok <==> db.runs[r].status in {Running, Pending, Cancelled})
            && (post.out == Ok ==>
                  && r in post.db.runs && post.db.runs[r].status == Cancelled
                  && post.db.runs[r].lockVersion
                     == db.runs[r].lockVersion + if db.runs[r].status == Cancelled then 0 else 1)
  {
    hide Cleanup, FinalizeDelegation;
  }

  // ----------------------------------------------------------- leases

  /** The lease asked for, in whole milliseconds and at least one; two minutes if none is asked for. */
  lemma LeaseLengthFits(lease: int)
    ensures lease <= 0 ==> LeaseLength(lease) == 120 * O.SECOND
    ensures lease > 0 ==> lease - O.MILLISECOND < LeaseLength(lease)
    ensures lease >= O.MILLISECOND ==> LeaseLength(lease) <= lease
    ensures 0 < lease < O.MILLISECOND ==> LeaseLength(lease) == O.MILLISECOND
    ensures LeaseLength(lease) % O.MILLISECOND == 0
  {
  }

  /** The proof is held after `dt` with nothing else happening. */
  ghost predicate HeldAfter(db: Db, p: Proof, dt: int)
  {
    Held(db.(now := db.now + dt), p)
  }

  /** The proof is held from now for exactly `length`. */
  ghost predicate HeldFor(db: Db, p: Proof, length: int)
  {
    forall dt :: dt >= 0 ==> (HeldAfter(db, p, dt) <==> dt <= length)
  }

  /** In every reachable state claiming execution succeeds exactly when the task runs and nobody holds it, and the proof
      it hands out is then held for exactly the lease. */
  lemma LeaseExactly(w: World, t: Id, owner: string, lease: int, token: string)
    requires Reachable(w) && token != ""
    ensures var tx := ClaimExecution(w.db, t, owner, lease, token);
            && (tx.owned <==> t in w.db.tasks && w.db.tasks[t].status == Running && Unheld(w.db, t))
            && (tx.owned ==>
                  HeldFor(tx.db, Proof(t, O.EffectiveOwner(owner), token, tx.generation), LeaseLength(lease)))
            && (!tx.owned ==> tx.db == w.db)
  {
    hide Reachable, Inv, Unheld, LeaseLength;
    ReachableInv(w);
    if t in w.db.tasks && w.db.tasks[t].status == Running {
      UnheldIsNoLiveLease(w, t);
    }
  }

  /** In every reachable state a worker renews exactly while it holds its proof, and then holds it for exactly the new
      lease from now. */
  lemma RenewExactly(w: World, p: Proof, lease: int)
    requires Reachable(w) && p in w.proofs && p.owner != ""
    ensures var tx := Renew(w.db, p.task, p.owner, p.token, lease);
            && tx.out == (if Held(w.db, p) then Ok else Conflict)
            && (tx.out == Ok ==> HeldFor(tx.db, p, LeaseLength(lease)))
            && (tx.out != Ok ==> tx.db == w.db)
  {
    hide Reachable, LeaseLength, DbInv, Outboxed, AuthenticPayloads;
    ReachableInv(w);
    assert p.token != "";
    if OwnerHolds(w.db, p.task, p.owner, p.token) {
      var task := w.db.tasks[p.task];
      assert Proof(p.task, task.owner, task.token, task.generation) in w.proofs;
    }
  }

  // ---------------------------------------------------------- binding

  /** In every reachable state binding a task succeeds exactly when it runs unbound or is bound to that delegation
      already, which a retry may find; nothing but the binding changes. */
  lemma BindExactly(w: World, t: Id, d: Id)
    requires Reachable(w) && t in w.db.tasks && d in w.db.delegations
    ensures var tx, task := Bind(w.db, t, d), w.db.tasks[t];
            && (tx.out == Ok <==> task.delegation == Some(d) || (task.status == Running && task.delegation == None))
            && (tx.out == Ok ==> tx.db == w.db.(tasks := w.db.tasks[t := task.(delegation := Some(d))]))
            && (tx.out != Ok ==> tx.db == w.db)
  {
    hide Reachable, Inv;
    ReachableInv(w);
    TaskIdNonEmpty(w, t);
    DelegationsHaveIds(w);
    var task := w.db.tasks[t];
    assert task.delegation == Some(d) ==> w.db.tasks[t := task.(delegation := Some(d))] == w.db.tasks;
  }

  /** In any database a delegation under a free key is written exactly for an open run, under ids not in use. */
  lemma PrewriteAnswers(db: Db, run: Id, d: Id, step: Id, key: string, nested: bool)
    requires key !in db.byIdempotency
    ensures Prewrite(db, run, d, step, key, nested).out ==
            if run !in db.runs then NotFound
            else if db.runs[run].status !in {Running, WaitingConfirmation, WaitingInteraction} then Invalid
            else if d in db.delegations || exists i :: 0 <= i < |db.steps| && db.steps[i].id == step then Conflict
            else Ok
  {
    var i := StepIndex(db.steps, step);
  }

  // ------------------------------------------------ nested delegations

  /** In every reachable state settling a running delegation of the agent's own succeeds, and delegation and step end
      in the status reported. */
  lemma NestedFinalizeWorks(w: World, d: Id, step: Option<Id>, status: Status)
    requires Reachable(w) && d in w.db.delegations && w.db.delegations[d].status == Running
    requires NamesStep(w.db, d, step) && Terminal(status)
    ensures var tx := FinalizeUnfenced(w.db, d, step, status);
            && tx.out == Ok && d in tx.db.delegations && tx.db.delegations[d].status == status
            && (w.db.delegations[d].nested ==>
                  forall i :: 0 <= i < |tx.db.steps| && tx.db.steps[i].delegation == d ==>
                    tx.db.steps[i].status == status)
  {
    hide Reachable, Inv, FinalizeDelegation, Paired;
    ReachableInv(w);
    PairedNow(w);
    FinalizeSucceeds(AuditOf(w.db), d, step, status);
    var run := w.db.delegations[d].parentRun;
    FinalizeSetsDelegation(AuditOf(w.db), d, step, run, status);
    if w.db.delegations[d].nested {
      var e := NestedFinalize(d, step, status);
      ReachableStep(w, e);
      var v := Apply(w, e);
      ReachableInv(v);
      PairedNow(v);
      StepsFollow(v.db, d);
    }
  }

  /** Settling it again in the same status changes nothing; in another status it is refused. */
  lemma NestedFinalizeIsIdempotent(w: World, d: Id, step: Option<Id>, status: Status)
    requires Reachable(w) && d in w.db.delegations && Terminal(w.db.delegations[d].status)
    requires NamesStep(w.db, d, step) && Terminal(status)
    ensures FinalizeUnfenced(w.db, d, step, status) ==
              Tx(if status == w.db.delegations[d].status then Ok else Conflict, w.db)
  {
    hide Reachable, Inv;
    ReachableInv(w);
    PairedNow(w);
    SettledAgain(AuditOf(w.db), d, step, status);
  }

  lemma SettledAgain(a: Audit, d: Id, step: Option<Id>, status: Status)
    requires Paired(a.steps, a.delegations) && d in a.delegations && Terminal(a.delegations[d].status)
    requires Terminal(status)
    requires step.Some? ==> StepIndex(a.steps, step.value) < |a.steps|
                            && a.steps[StepIndex(a.steps, step.value)].delegation == d
    ensures FinalizeDelegation(a, d, step, a.delegations[d].parentRun, status) ==
              AuditTx(if status == a.delegations[d].status then Ok else Conflict, a)
  {
    hide StepIndex, StepOf;
    var run := a.delegations[d].parentRun;
    var i := if step.Some? then StepIndex(a.steps, step.value) else StepOf(a.steps, run, d);
    assert StepSound(a.steps, i, a.delegations);
    assert a.steps[i := a.steps[i].(status := a.steps[i].status)] == a.steps;
  }

  lemma StepsFollow(db: Db, d: Id)
    requires Paired(db.steps, db.delegations) && d in db.delegations
    ensures forall i :: 0 <= i < |db.steps| && db.steps[i].delegation == d ==>
              db.steps[i].status == db.delegations[d].status
  {
    forall i | 0 <= i < |db.steps| && db.steps[i].delegation == d
      ensures db.steps[i].status == db.delegations[d].status
    {
      assert StepSound(db.steps, i, db.delegations);
    }
  }

  // ------------------------------------------------------------ claims

  /** The external task id names no other task of the principal. */
  ghost predicate AliasFree(db: Db, c: ClaimInput)
  {
    c.externalTask == "" || AliasKey(c.key.scope, c.externalTask) !in db.aliases
  }

  /** In every reachable state a request without an authority gets one exactly when a fresh run was prepared and neither
      its task id nor its external task id is in use: a running task and a running run under its key and hash. */
  lemma FirstClaimExactly(w: World, c: ClaimInput)
    requires Reachable(w) && ValidKey(c.key) && c.newTask != ""
    requires forall t :: t in w.db.tasks ==> w.db.tasks[t].key != c.key
    ensures var tx := ClaimTask(w.db, c);
            && tx.out == (if c.prepared == None || c.prepared.value == "" || c.prepared.value in w.db.runs
                          then PrepareFailed
                          else if c.newTask in w.db.tasks then Conflict
                          else if AliasFree(w.db, c) then Ok
                          else if w.db.aliases[AliasKey(c.key.scope, c.externalTask)] == c.newTask then Ok
                          else Conflict)
            && (tx.out == Ok ==>
                  && tx.task == Some(c.newTask) && !tx.replay
                  && FourObjects(tx.db, c.newTask, Running)
                  && tx.db.tasks[c.newTask].key == c.key && tx.db.tasks[c.newTask].requestHash == c.requestHash
                  && tx.db.tasks[c.newTask].run == c.prepared.value)
  {
    hide Reachable, Inv, FourObjects;
    ReachableInv(w);
    DbInvKeyed(w);
    if ClaimTask(w.db, c).out == Ok {
      AgreedAfter(w, ClaimRequest(c), c.newTask, Running);
    }
  }

  /** A claim is malformed exactly when its key, exposure or principal is missing. */
  lemma MalformedClaims(db: Db, c: ClaimInput)
    ensures ClaimTask(db, c).out == Invalid <==>
            "" in {c.key.externalKey, c.key.scope.exposure, c.key.scope.actorType, c.key.scope.actorId}
  {
  }

  // ------------------------------------------------------------ outbox

  /** What is enqueued is what the next worker gets, right away unless the row has been rejected 32 times. */
  lemma EnqueuedIsClaimedNext(w: World, c: Command, owner: string, lease: int, token: string)
    requires Reachable(w) && Legal(w, EnqueueFinish(c))
    ensures var d, v := c.delegation.value, Apply(w, EnqueueFinish(c)).db;
            var claim := O.TakeClaim(v.outbox, v.now, d, owner, lease, token).1;
            && d in v.outbox && v.outbox[d].payload == c
            && (d !in w.db.outbox ==> v.outbox[d].attempts == 0)
            && (d in w.db.outbox ==> v.outbox[d].attempts == w.db.outbox[d].attempts)
            && (claim.Some? <==> v.outbox[d].attempts < O.MAX_ATTEMPTS)
            && (claim.Some? ==> claim.value.payload == c && claim.value.token == token)
            && (forall x :: x != d ==> (x in v.outbox <==> x in w.db.outbox))
            && (forall x :: x != d && x in w.db.outbox ==> v.outbox[x] == w.db.outbox[x])
  {
    hide Reachable, Finish, Cancel, Cleanup, ClaimTask, Prewrite;
    assert c.task != "" && c.token != "" && c.generation >= 1 && c.delegation.Some?;
    hide Authentic;
  }

  /** A claim keeps the row from other workers for exactly its lease. */
  lemma OutboxClaimLasts(rows: O.Rows<Command>, now: int, d: Id, owner: string, lease: int, token: string, dt: int)
    requires d in rows && O.Claimable(rows[d], now) && dt >= 0
    ensures var post := O.TakeClaim(rows, now, d, owner, lease, token).0;
            && d in post && (O.Claimable(post[d], now + dt) <==> dt > O.EffectiveLease(lease))
            && post[d].payload == rows[d].payload && post[d].attempts == rows[d].attempts
            && post[d].claimGeneration == rows[d].claimGeneration + 1
    ensures lease <= 0 ==> O.EffectiveLease(lease) == 30 * O.SECOND
    ensures lease > 0 ==> lease - O.SECOND < O.EffectiveLease(lease) <= lease
    ensures O.EffectiveLease(lease) % O.SECOND == 0
  {
  }

  /** The claimant's acknowledgement removes its row and nothing else; anyone else's removes nothing. */
  lemma AcknowledgeExactly(w: World, c: O.Claim<Command>)
    requires Reachable(w) && c in w.claims
    ensures var post := Apply(w, AckOutbox(c)).db.outbox;
            post == if HoldsRow(w, c) then w.db.outbox - {c.delegation} else w.db.outbox
  {
    hide Reachable;
  }

  /** The claimant's rejection counts one attempt and puts the row off by the backoff; anyone else's does nothing. */
  lemma RejectExactly(w: World, c: O.Claim<Command>, dt: int)
    requires Reachable(w) && c in w.claims && dt >= 0
    ensures var post := Apply(w, NackOutbox(c)).db.outbox;
            if HoldsRow(w, c) then
              && c.delegation in post && post[c.delegation].attempts == w.db.outbox[c.delegation].attempts + 1
              && post[c.delegation].payload == w.db.outbox[c.delegation].payload
              && (O.Claimable(post[c.delegation], w.db.now + dt) <==>
                    post[c.delegation].attempts < O.MAX_ATTEMPTS && dt >= O.Backoff(c.attempts))
            else post == w.db.outbox
  {
    hide Reachable, DbInv, Leased, AuthenticPayloads, O.Backoff;
    ReachableInv(w);
    if HoldsRow(w, c) {
      OnlyTheLatestClaimantActs(w, c, c);
    }
  }

  /** Twenty milliseconds more for every attempt, half a minute at most. */
  lemma BackoffGrows(a: nat)
    ensures O.Backoff(0) == 20 * O.MILLISECOND
    ensures O.Backoff(a + 1) == Min(O.Backoff(a) + 20 * O.MILLISECOND, 30 * O.SECOND)
  {
  }
}
