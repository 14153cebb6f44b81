/** The gateway repository in its own form: tables that transactions update in
    place, row by row, and roll back when a later statement refuses. Each method is
    proved to commit exactly its transaction of `InboundRows`. */
module InboundStore {
  import opened Common
  import opened InboundRows
  import P = InboundProtocol
  import O = FinalizeOutbox

  class Repository {
    var now: int
    var tasks: map<Id, Task>
    var byKey: map<RequestKey, Id>
    var runs: map<Id, Run>
    var delegations: map<Id, Delegation>
    var byIdempotency: map<string, Id>
    var steps: seq<Step>
    var aliases: map<AliasKey, Id>
    var outbox: O.Rows<Command>

    function View(): Db
      reads this
    {
      Db(now, tasks, byKey, runs, delegations, byIdempotency, steps, aliases, outbox)
    }

    constructor ()
      ensures View() == EMPTY
    {
      now, tasks, byKey, runs, delegations := 0, map[], map[], map[], map[];
      byIdempotency, steps, aliases, outbox := map[], [], map[], map[];
    }

    /** Ends a transaction by restoring what it began with. */
    method Rollback(begin: Db)
      modifies this
      ensures View() == begin
    {
      now, tasks, byKey, runs, delegations := begin.now, begin.tasks, begin.byKey, begin.runs, begin.delegations;
      byIdempotency, steps, aliases, outbox := begin.byIdempotency, begin.steps, begin.aliases, begin.outbox;
    }

    // ---------------------------------------------------------- claim

    method RegisterAliasTx(scope: Scope, externalTask: string, task: Id) returns (out: Outcome)
      modifies this`aliases
      ensures AliasTx(out, aliases) == RegisterAlias(old(aliases), scope, externalTask, task)
    {
      if externalTask == "" { return Ok; }
      var k := AliasKey(scope, externalTask);
      if k !in aliases {
        aliases := aliases[k := task];
        return Ok;
      }
      out := if aliases[k] == task then Ok else Conflict;
    }

    method ClaimInboundTask(c: ClaimInput) returns (out: Outcome, task: Option<Id>, replay: bool)
      modifies this
      ensures ClaimTx(out, task, replay, View()) == ClaimTask(old(View()), c)
    {
      task, replay := None, false;
      if !ValidKey(c.key) { return Invalid, None, false; }
      var begin := View();
      if c.key in byKey && byKey[c.key] in tasks {
        var t := byKey[c.key];
        if tasks[t].requestHash != c.requestHash { return Conflict, None, false; }
        out := RegisterAliasTx(c.key.scope, c.externalTask, t);
        if out != Ok {
          Rollback(begin);
          return;
        }
        return Ok, Some(t), true;
      }
      if c.prepared.None? || c.prepared.value == "" || c.prepared.value in runs { return PrepareFailed, None, false; }
      runs := runs[c.prepared.value := Run(Running, 0)];
      if c.newTask in tasks {
        Rollback(begin);
        return Conflict, None, false;
      }
      tasks := tasks[c.newTask := FreshTask(c, c.prepared.value)];
      byKey := byKey[c.key := c.newTask];
      out := RegisterAliasTx(c.key.scope, c.externalTask, c.newTask);
      if out != Ok {
        Rollback(begin);
        return;
      }
      return Ok, Some(c.newTask), false;
    }

    method BindInboundTaskDelegation(task: Id, delegation: Id) returns (out: Outcome)
      modifies this`tasks
      ensures Tx(out, View()) == Bind(old(View()), task, delegation)
    {
      if task == "" || delegation == "" { return Invalid; }
      if task in tasks && tasks[task].delegation == Some(delegation) { return Ok; }
      if task in tasks && tasks[task].status == Running && tasks[task].delegation.None? {
        tasks := tasks[task := tasks[task].(delegation := Some(delegation))];
        return Ok;
      }
      out := Conflict;
    }

    // ---------------------------------------------------------- lease

    method ClaimInboundExecution(task: Id, owner: string, lease: int, token: string)
      returns (owned: bool, generation: nat)
      modifies this`tasks
      ensures LeaseTx(owned, generation, View()) == ClaimExecution(old(View()), task, owner, lease, token)
    {
      owned, generation := false, 0;
      if task in tasks && Reclaimable(tasks[task], now) {
        owned, generation := true, tasks[task].generation + 1;
        tasks := tasks[task := tasks[task].(generation := generation, owner := O.EffectiveOwner(owner),
                                            token := token, leaseUntil := Some(now + LeaseLength(lease)))];
      }
    }

    method RenewInboundExecutionLease(task: Id, owner: string, token: string, lease: int) returns (out: Outcome)
      modifies this`tasks
      ensures Tx(out, View()) == Renew(old(View()), task, owner, token, lease)
    {
      if owner == "" || token == "" { return Invalid; }
      if !OwnerHolds(View(), task, owner, token) { return Conflict; }
      tasks := tasks[task := tasks[task].(leaseUntil := Some(now + LeaseLength(lease)))];
      out := Ok;
    }

    method AssertInboundExecutionHeld(task: Id, owner: string, token: string, generation: int) returns (out: Outcome)
      ensures out == Invalid <==> owner == "" || token == ""
      ensures out == Ok <==>
                && owner != "" && OwnerHolds(View(), task, owner, token)
                && (generation == 0 || Holds(View(), task, owner, token, generation))
      ensures out in {Ok, Conflict, Invalid}
    {
      if owner == "" || token == "" { return Invalid; }
      if !OwnerHolds(View(), task, owner, token) { return Conflict; }
      if generation != 0 && tasks[task].generation != generation { return Conflict; }
      out := Ok;
    }

    // -------------------------------------------------- terminal rows

    method TransitionRunTx(run: Id, next: Status, expected: Option<Status>, lock: int, allowAlready: bool)
      returns (out: Outcome)
      modifies this`runs
      ensures RunTx(out, runs) == TransitionRun(old(runs), run, next, expected, lock, allowAlready)
    {
      if run in runs && RunMatches(runs[run], expected, lock) {
        runs := runs[run := Run(next, runs[run].lockVersion + 1)];
        return Ok;
      }
      if allowAlready && run in runs && runs[run].status == next { return Ok; }
      out := Conflict;
    }

    method FinalizeStepTx(delegation: Id, step: Option<Id>, parentRun: Id, status: Status) returns (out: Outcome)
      modifies this`steps
      ensures AuditTx(out, AuditOf(View())) == FinalizeStep(old(AuditOf(View())), delegation, step, parentRun, status)
    {
      hide StepIndex, StepOf;
      var i := if step.Some? then StepIndex(steps, step.value) else StepOf(steps, parentRun, delegation);
      if i == |steps| { return Conflict; }
      if steps[i].delegation != delegation || steps[i].run != parentRun { return Conflict; }
      if steps[i].status != Running && steps[i].status != status { return Conflict; }
      steps := steps[i := steps[i].(status := status)];
      out := Ok;
    }

    method FinalizeDelegationTx(delegation: Id, step: Option<Id>, parentRun: Id, status: Status) returns (out: Outcome)
      modifies this`delegations, this`steps
      ensures out == FinalizeDelegation(old(AuditOf(View())), delegation, step, parentRun, status).out
      ensures out == Ok ==>
                AuditOf(View()) == FinalizeDelegation(old(AuditOf(View())), delegation, step, parentRun, status).audit
    {
      hide FinalizeStep;
      if !Terminal(status) { return Invalid; }
      if delegation !in delegations { return NotFound; }
      var current := delegations[delegation];
      if current.parentRun != parentRun { return Conflict; }
      var already := Terminal(current.status);
      if already && current.status != status { return Conflict; }
      if !already {
        if current.status != Pending && current.status != Running { return Conflict; }
        delegations := delegations[delegation := current.(status := status)];
      }
      out := FinalizeStepTx(delegation, step, parentRun, status);
    }

    /** A task without a delegation has none to finalize. */
    method FinalizeIfAnyTx(delegation: Option<Id>, step: Option<Id>, parentRun: Id, status: Status)
      returns (out: Outcome)
      modifies this`delegations, this`steps
      ensures out == FinalizeIfAny(old(AuditOf(View())), delegation, step, parentRun, status).out
      ensures out == Ok ==>
                AuditOf(View()) == FinalizeIfAny(old(AuditOf(View())), delegation, step, parentRun, status).audit
    {
      hide FinalizeDelegation;
      if delegation.None? { return Ok; }
      out := FinalizeDelegationTx(delegation.value, step, parentRun, status);
    }

    method FencedInboundTerminal(c: Command) returns (out: Outcome)
      modifies this
      ensures Tx(out, View()) == Finish(old(View()), c)
    {
      if !WellFormed(c) { return Invalid; }
      if !Holds(View(), c.task, c.owner, c.token, c.generation) { return Conflict; }
      if tasks[c.task].run != c.run { return Conflict; }
      if tasks[c.task].delegation.None? { return Conflict; }
      var bound := tasks[c.task].delegation.value;
      if c.delegation.Some? && c.delegation.value != bound { return Conflict; }
      if !Terminal(c.delegationStatus) { return Invalid; }
      var begin := View();
      out := TransitionRunTx(c.run, c.runStatus, c.expectedRun, c.expectedLock, false);
      if out != Ok {
        Rollback(begin);
        return;
      }
      out := FinalizeDelegationTx(bound, c.step, c.run, c.delegationStatus);
      if out != Ok {
        Rollback(begin);
        return;
      }
      tasks := tasks[c.task := tasks[c.task].(status := c.taskStatus, leaseUntil := None)];
    }

    /** Run, then delegation and step. */
    method CancelRows(run: Id, delegation: Option<Id>) returns (out: Outcome)
      modifies this`runs, this`delegations, this`steps
      ensures var r := TransitionRun(old(runs), run, Cancelled, None, 0, true);
              var a := FinalizeIfAny(old(AuditOf(View())), delegation, None, run, Cancelled);
              && out == (if r.out != Ok then r.out else a.out)
              && (out == Ok ==> runs == r.runs && AuditOf(View()) == a.audit)
    {
      hide FinalizeIfAny, TransitionRun;
      out := TransitionRunTx(run, Cancelled, None, 0, true);
      if out != Ok { return; }
      out := FinalizeIfAnyTx(delegation, None, run, Cancelled);
    }

    method AtomicInboundCancel(task: Id) returns (out: Outcome)
      modifies this
      ensures Tx(out, View()) == Cancel(old(View()), task)
    {
      if task == "" { return Invalid; }
      if task !in tasks { return NotFound; }
      if Terminal(tasks[task].status) { return Ok; }
      hide FinalizeIfAny, TransitionRun;
      var begin := View();
      var t := tasks[task];
      tasks := tasks[task := t.(generation := t.generation + 1, token := "", leaseUntil := None)];
      out := CancelRows(t.run, t.delegation);
      if out != Ok {
        Rollback(begin);
        return;
      }
      tasks := tasks[task := tasks[task].(status := Cancelled)];
      assert tasks == begin.tasks[task := Retired(t, Cancelled)];
    }

    method CleanupRunTx(c: CleanupInput) returns (out: Outcome)
      modifies this`runs
      ensures RunTx(out, runs) == CleanupRun(old(runs), c)
    {
      out := TransitionRunTx(c.run, c.status, Some(Running), 0, false);
      if out != Ok {
        out := TransitionRunTx(c.run, c.status, Some(Pending), 0, false);
        if out != Ok {
          out := TransitionRunTx(c.run, c.status, None, 0, true);
        }
      }
    }

    method AtomicUnownedInboundCleanup(c: CleanupInput) returns (out: Outcome)
      modifies this
      ensures Tx(out, View()) == Cleanup(old(View()), c)
    {
      if c.task == "" || c.run == "" || !Terminal(c.status) { return Invalid; }
      if c.task !in tasks || !Unowned(tasks[c.task], now) { return Conflict; }
      var t := tasks[c.task];
      if t.run != c.run { return Conflict; }
      if c.delegation.Some? && t.delegation.Some? && c.delegation != t.delegation { return Conflict; }
      hide FinalizeIfAny, CleanupRun;
      var begin := View();
      out := CleanupRunTx(c);
      if out != Ok {
        Rollback(begin);
        return;
      }
      out := FinalizeIfAnyTx(CleanupTarget(t, c), c.step, c.run, CleanupStatus(c));
      if out != Ok {
        Rollback(begin);
        return;
      }
      tasks := tasks[c.task := Retired(t, c.status)];
    }

    // --------------------------------------------------------- outbox

    method EnqueueFencedTerminalOutbox(c: Command) returns (out: Outcome)
      modifies this`outbox
      ensures Tx(out, View()) == EnqueueCommand(old(View()), c)
    {
      if c.delegation.None? || c.task == "" || c.token == "" || c.generation < 1 { return Invalid; }
      outbox := O.Enqueue(outbox, now, c.delegation.value, c);
      out := Ok;
    }

    method ClaimFinalizeOutbox(delegation: Id, owner: string, lease: int, token: string)
      returns (claim: Option<O.Claim<Command>>)
      modifies this`outbox
      ensures (outbox, claim) == O.TakeClaim(old(outbox), now, delegation, owner, lease, token)
    {
      if delegation !in outbox || !O.Claimable(outbox[delegation], now) { return None; }
      var row := outbox[delegation];
      var who := O.EffectiveOwner(owner);
      outbox := outbox[delegation := row.(claimedUntil := Some(now + O.EffectiveLease(lease)), claimedBy := who,
                                          claimToken := token, claimGeneration := row.claimGeneration + 1)];
      claim := Some(O.Claim(delegation, who, token, row.payload, row.attempts));
    }

    method DeleteFinalizeOutboxClaimed(delegation: Id, owner: string, token: string) returns (out: Outcome)
      modifies this`outbox
      ensures outbox == O.Acknowledge(old(outbox), delegation, owner, token)
      ensures out == if O.HoldsClaim(old(outbox), delegation, owner, token) then Ok else Conflict
    {
      if !O.HoldsClaim(outbox, delegation, owner, token) { return Conflict; }
      outbox := outbox - {delegation};
      out := Ok;
    }

    method NackFinalizeOutbox(delegation: Id, owner: string, token: string, attempts: nat) returns (out: Outcome)
      modifies this`outbox
      ensures outbox == O.Reject(old(outbox), now, delegation, owner, token, attempts)
      ensures out == if O.HoldsClaim(old(outbox), delegation, owner, token) then Ok else Conflict
    {
      if !O.HoldsClaim(outbox, delegation, owner, token) { return Conflict; }
      outbox := outbox[delegation := outbox[delegation].(attempts := attempts + 1,
                                                         nextAttemptAt := now + O.Backoff(attempts),
                                                         claimedUntil := None, claimedBy := "", claimToken := "")];
      out := Ok;
    }

    /** A worker re-applies the fenced command; success and conflict acknowledge, anything else reschedules. */
    method ProcessRow(row: O.Claim<Command>)
      modifies this
      ensures var c := Addressed(row);
              var tx := Finish(old(View()), c);
              View() == tx.db.(outbox := if tx.out == Ok || tx.out == Conflict
                                         then O.Acknowledge(tx.db.outbox, row.delegation, row.owner, row.token)
                                         else O.Reject(tx.db.outbox, tx.db.now, row.delegation, row.owner, row.token,
                                                       row.attempts))
    {
      var c := Addressed(row);
      var out := FencedInboundTerminal(c);
      if out == Ok || out == Conflict {
        var _ := DeleteFinalizeOutboxClaimed(row.delegation, row.owner, row.token);
      } else {
        var _ := NackFinalizeOutbox(row.delegation, row.owner, row.token, row.attempts);
      }
    }

    // -------------------------------------------------------- gateway

    /** With a lease: the fenced transaction, unowned cleanup if the lease is lost, the outbox for anything
        else. Without one: unowned cleanup. Never an unfenced write. */
    method CleanupFailedPreDispatch(task: Id, run: Id, delegation: Option<Id>, step: Option<Id>, lease: Option<P.Proof>)
      returns (applied: bool)
      modifies this
      ensures var c := FailCommand(task, run, delegation, step, lease);
              var k := CleanupInput(task, run, delegation, step, Failed, Some(Failed));
              if task == "" then View() == old(View()) && !applied
              else if !LeaseUsable(lease) then
                View() == Cleanup(old(View()), k).db && applied == (Cleanup(old(View()), k).out == Ok)
              else match Finish(old(View()), c)
                case Tx(Ok, db) => View() == db && applied
                case Tx(Conflict, _) =>
                  View() == Cleanup(old(View()), k).db && applied == (Cleanup(old(View()), k).out == Ok)
                case Tx(_, _) => View() == EnqueueCommand(old(View()), c).db && !applied
    {
      if task == "" { return false; }
      hide Finish, Cleanup;
      var c := FailCommand(task, run, delegation, step, lease);
      var k := CleanupInput(task, run, delegation, step, Failed, Some(Failed));
      if LeaseUsable(lease) {
        var out := FencedInboundTerminal(c);
        if out == Conflict {
          out := AtomicUnownedInboundCleanup(k);
          return out == Ok;
        }
        if out != Ok {
          var _ := EnqueueFencedTerminalOutbox(c);
        }
        return out == Ok;
      }
      var out := AtomicUnownedInboundCleanup(k);
      applied := out == Ok;
    }

    /** Looks the task up for one principal, by primary id or alias, and cancels it. */
    method CancelInbound(scope: Scope, externalTask: string) returns (out: Outcome)
      modifies this
      ensures scope.exposure == "" || externalTask == "" || scope.actorType == "" || scope.actorId == "" ==>
                out == Invalid && View() == old(View())
      ensures scope.exposure != "" && externalTask != "" && scope.actorType != "" && scope.actorId != "" ==>
                || (&& (forall t :: !Visible(old(View()), scope, externalTask, t))
                    && out == NotFound && View() == old(View()))
                || exists t :: && Visible(old(View()), scope, externalTask, t)
                               && Tx(out, View()) == CancelVisible(old(View()), t)
    {
      if scope.exposure == "" || externalTask == "" || scope.actorType == "" || scope.actorId == "" { return Invalid; }
      var found := set t | t in tasks && Visible(View(), scope, externalTask, t);
      if found == {} {
        assert forall t :: Visible(View(), scope, externalTask, t) ==> t in found;
        return NotFound;
      }
      var t :| t in found;
      if Terminal(tasks[t].status) { return Ok; }
      out := AtomicInboundCancel(t);
    }
  }

  /** An outbox command without a delegation is for the row's own. */
  function Addressed(row: O.Claim<Command>): Command
  {
    if row.payload.delegation.None? then row.payload.(delegation := Some(row.delegation)) else row.payload
  }

  function CancelVisible(db: Db, t: Id): Tx
    requires t in db.tasks
  {
    if Terminal(db.tasks[t].status) then Tx(Ok, db) else Cancel(db, t)
  }

  predicate LeaseUsable(lease: Option<P.Proof>)
  {
    lease.Some? && lease.value.token != "" && lease.value.generation > 0
  }

  function FailCommand(task: Id, run: Id, delegation: Option<Id>, step: Option<Id>, lease: Option<P.Proof>): Command
  {
    var p := if lease.Some? then lease.value else P.Proof("", "", "", 0);
    Command(task, run, p.owner, p.token, p.generation, Failed, Failed, Failed, Some(Running), 0, delegation, step)
  }
}
