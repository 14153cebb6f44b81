/** The inbound protocol as a state machine: replicas, cancellers, cleaners and
    outbox workers interleave their transactions in any order. */
module InboundProtocol {
  import opened Common
  import opened InboundRows
  import O = FinalizeOutbox

  /** What a successful execution claim hands to its worker. */
  datatype Proof = Proof(task: Id, owner: string, token: string, generation: int)

  /** The database plus what its clients have been told so far: every lease proof
      handed out, every outbox claim handed out, how often the present outbox row of
      a delegation has been rejected, and the task each run was prepared for. */
  datatype World = World(
    db: Db, proofs: set<Proof>, claims: set<O.Claim<Command>>, rejections: map<Id, nat>, preparedFor: map<Id, Id>)

  const START := World(EMPTY, {}, {}, map[], map[])

  datatype Event =
    | ClaimRequest(claim: ClaimInput)
    | PrewriteDelegation(task: Id, delegation: Id, step: Id, idempotencyKey: string)
    | NestedPrewrite(run: Id, delegation: Id, step: Id, idempotencyKey: string)
    | NestedFinalize(delegation: Id, ownStep: Option<Id>, status: Status)
    | BindDelegation(task: Id, delegation: Id)
    | ClaimLease(task: Id, owner: string, lease: int, token: string)
    | RenewLease(task: Id, owner: string, token: string, lease: int)
    | FinishTask(command: Command)
    | CancelTask(task: Id)
    | CleanupTask(cleanup: CleanupInput)
    | EnqueueFinish(command: Command)
    | ClaimOutbox(delegation: Id, owner: string, lease: int, token: string)
    | AckOutbox(c: O.Claim<Command>)
    | NackOutbox(c: O.Claim<Command>)
    | ForgetOutbox(task: Id)
    | Tick(elapsed: nat)

  /** The gateway always passes one status for task, run and delegation. */
  predicate Uniform(c: Command)
  {
    c.taskStatus == c.runStatus == c.delegationStatus
  }

  /** A step id, when given, is that of a step of the delegation. */
  predicate NamesStep(db: Db, delegation: Id, step: Option<Id>)
  {
    step.Some? ==> StepIndex(db.steps, step.value) < |db.steps|
                   && db.steps[StepIndex(db.steps, step.value)].delegation == delegation
  }

  /** A completion of this task, run and bound delegation, named or left to be looked up, whatever its statuses. */
  predicate Entitled(db: Db, c: Command)
  {
    && WellFormed(c) && Terminal(c.delegationStatus)
    && c.task in db.tasks && db.tasks[c.task].run == c.run
    && db.tasks[c.task].delegation.Some? && (c.delegation.Some? ==> c.delegation == db.tasks[c.task].delegation)
    && NamesStep(db, db.tasks[c.task].delegation.value, c.step)
  }

  /** The run is expected to be running, at no particular lock version. */
  predicate ExpectsRunning(c: Command)
  {
    c.expectedRun == Some(Running) && c.expectedLock == 0
  }

  /** A completion as the executor builds it after binding and leasing. */
  predicate Authentic(db: Db, c: Command)
  {
    Entitled(db, c) && ExpectsRunning(c) && Uniform(c) && c.delegation.Some?
  }

  /** Minted ids and tokens are fresh, and each call is one the gateway makes. */
  predicate Legal(w: World, e: Event)
  {
    match e
    case ClaimRequest(c) => c.newTask != ""
    case PrewriteDelegation(t, d, s, _) => t in w.db.tasks && d != ""
    case NestedPrewrite(_, d, _, _) => d != ""
    case NestedFinalize(d, s, _) => d in w.db.delegations ==> w.db.delegations[d].nested && NamesStep(w.db, d, s)
    case BindDelegation(t, d) =>
      t in w.db.tasks ==>
        d in w.db.delegations && w.db.delegations[d].parentRun == w.db.tasks[t].run && !w.db.delegations[d].nested
    case ClaimLease(_, _, _, token) => token != "" && forall p :: p in w.proofs ==> p.token != token
    case RenewLease(_, _, _, _) => true
    case FinishTask(c) => Uniform(c)
    case CancelTask(_) => true
    case CleanupTask(c) => c.delegationStatus.None? || c.delegationStatus.value == c.status
    case EnqueueFinish(c) => Authentic(w.db, c)
    case ClaimOutbox(_, _, _, token) => token != "" && forall c :: c in w.claims ==> c.token != token
    case AckOutbox(c) => c in w.claims
    case NackOutbox(c) => c in w.claims
    case ForgetOutbox(t) => t in w.db.tasks && Terminal(w.db.tasks[t].status) && w.db.tasks[t].delegation.Some?
    case Tick(_) => true
  }

  function Apply(w: World, e: Event): World
    requires Legal(w, e)
  {
    var db := w.db;
    match e
    case ClaimRequest(c) =>
      var tx := ClaimTask(db, c);
      w.(db := tx.db,
         preparedFor := if tx.out == Ok && !tx.replay then w.preparedFor[c.prepared.value := c.newTask]
                        else w.preparedFor)
    case PrewriteDelegation(t, d, s, key) => w.(db := Prewrite(db, db.tasks[t].run, d, s, key, false).db)
    case NestedPrewrite(run, d, s, key) => w.(db := Prewrite(db, run, d, s, key, true).db)
    case NestedFinalize(d, s, status) => w.(db := FinalizeUnfenced(db, d, s, status).db)
    case BindDelegation(t, d) => w.(db := Bind(db, t, d).db)
    case ClaimLease(t, owner, lease, token) =>
      var tx := ClaimExecution(db, t, owner, lease, token);
      if tx.owned then w.(db := tx.db, proofs := w.proofs + {Proof(t, O.EffectiveOwner(owner), token, tx.generation)})
      else w
    case RenewLease(t, owner, token, lease) => w.(db := Renew(db, t, owner, token, lease).db)
    case FinishTask(c) => w.(db := Finish(db, c).db)
    case CancelTask(t) => w.(db := Cancel(db, t).db)
    case CleanupTask(c) => w.(db := Cleanup(db, c).db)
    case EnqueueFinish(c) =>
      var d := c.delegation.value;
      w.(db := EnqueueCommand(db, c).db,
         rejections := if d in db.outbox then w.rejections else w.rejections[d := 0])
    case ClaimOutbox(d, owner, lease, token) =>
      var taken := O.TakeClaim(db.outbox, db.now, d, owner, lease, token);
      w.(db := db.(outbox := taken.0),
         claims := if taken.1.Some? then w.claims + {taken.1.value} else w.claims)
    case AckOutbox(c) => w.(db := db.(outbox := O.Acknowledge(db.outbox, c.delegation, c.owner, c.token)))
    case NackOutbox(c) =>
      w.(db := db.(outbox := O.Reject(db.outbox, db.now, c.delegation, c.owner, c.token, c.attempts)),
         rejections := if O.HoldsClaim(db.outbox, c.delegation, c.owner, c.token) && c.delegation in w.rejections
                       then w.rejections[c.delegation := w.rejections[c.delegation] + 1] else w.rejections)
    case ForgetOutbox(t) => w.(db := db.(outbox := db.outbox - {db.tasks[t].delegation.value}))
    case Tick(elapsed) => w.(db := db.(now := db.now + elapsed))
  }

  // -------------------------------------------------------------- runs

  predicate LegalRun(w: World, es: seq<Event>)
    decreases |es|
  {
    es == [] || (Legal(w, es[0]) && LegalRun(Apply(w, es[0]), es[1..]))
  }

  function Exec(w: World, es: seq<Event>): World
    requires LegalRun(w, es)
    decreases |es|
  {
    if es == [] then w else Exec(Apply(w, es[0]), es[1..])
  }

  // -------------------------------------------------------- invariants

  type Tasks = map<Id, Task>
  type Delegations = map<Id, Delegation>

  /** The unique index on request identity. */
  ghost predicate Keyed(tasks: Tasks, byKey: map<RequestKey, Id>)
  {
    && (forall k :: k in byKey ==> byKey[k] in tasks && tasks[byKey[k]].key == k)
    && (forall t :: t in tasks ==> tasks[t].key in byKey && byKey[tasks[t].key] == t)
  }

  /** Tasks and runs are in bijection: no orphan run, no shared run. */
  ghost predicate OneRunPerTask(tasks: Tasks, runs: map<Id, Run>, of: map<Id, Id>)
  {
    && (forall t :: t in tasks ==>
          t != "" && tasks[t].run != "" && tasks[t].run in runs && tasks[t].run in of && of[tasks[t].run] == t)
    && (forall r :: r in runs ==> r in of && of[r] in tasks && tasks[of[r]].run == r)
  }

  ghost predicate StepSound(steps: seq<Step>, i: nat, delegations: Delegations)
    requires i < |steps|
  {
    && StepIndex(steps, steps[i].id) == i
    && StepOf(steps, steps[i].run, steps[i].delegation) == i
    && steps[i].delegation in delegations
    && steps[i].run == delegations[steps[i].delegation].parentRun
    && steps[i].status == delegations[steps[i].delegation].status
  }

  /** Every delegation has exactly one step, in the same run and the same status. */
  ghost predicate Paired(steps: seq<Step>, delegations: Delegations)
  {
    && (forall i :: 0 <= i < |steps| ==> StepSound(steps, i, delegations))
    && (forall d :: d in delegations ==> d != "" && StepOf(steps, delegations[d].parentRun, d) < |steps|)
  }

  /** A bound delegation is the gateway's own, of the task's own run. */
  ghost predicate BoundToOwnRun(tasks: Tasks, delegations: Delegations)
  {
    forall t :: t in tasks && tasks[t].delegation.Some? ==>
      && tasks[t].delegation.value in delegations
      && delegations[tasks[t].delegation.value].parentRun == tasks[t].run
      && !delegations[tasks[t].delegation.value].nested
  }

  /** While a task runs, so does every delegation the gateway made for its run; nested ones come and go. */
  ghost predicate OpenTogether(tasks: Tasks, delegations: Delegations, of: map<Id, Id>)
  {
    forall d :: d in delegations ==>
      && delegations[d].parentRun in of && of[delegations[d].parentRun] in tasks
      && tasks[of[delegations[d].parentRun]].run == delegations[d].parentRun
      && (tasks[of[delegations[d].parentRun]].status == Running && !delegations[d].nested ==>
            delegations[d].status == Running)
  }

  /** Task, run and bound delegation are in one status, and a closed task has no lease. */
  ghost predicate Agrees(task: Task, runs: map<Id, Run>, delegations: Delegations)
  {
    && (task.status == Running || Terminal(task.status))
    && task.run in runs && runs[task.run].status == task.status
    && (Terminal(task.status) ==>
          && task.leaseUntil == None
          && (task.delegation.Some? ==>
                && task.delegation.value in delegations
                && delegations[task.delegation.value].status == task.status))
  }

  ghost predicate AllAgree(tasks: Tasks, runs: map<Id, Run>, delegations: Delegations)
  {
    forall t :: t in tasks ==> Agrees(tasks[t], runs, delegations)
  }

  ghost predicate Aliased(tasks: Tasks, aliases: map<AliasKey, Id>)
  {
    && (forall k :: k in aliases ==> aliases[k] in tasks && tasks[aliases[k]].key.scope == k.scope)
    && (forall t :: t in tasks && tasks[t].externalTask != "" ==>
          && AliasKey(tasks[t].key.scope, tasks[t].externalTask) in aliases
          && aliases[AliasKey(tasks[t].key.scope, tasks[t].externalTask)] == t)
  }

  ghost predicate DbInv(db: Db, of: map<Id, Id>)
  {
    && Keyed(db.tasks, db.byKey)
    && OneRunPerTask(db.tasks, db.runs, of)
    && Paired(db.steps, db.delegations)
    && BoundToOwnRun(db.tasks, db.delegations)
    && OpenTogether(db.tasks, db.delegations, of)
    && AllAgree(db.tasks, db.runs, db.delegations)
    && Aliased(db.tasks, db.aliases)
  }

  /** Proofs are distinct, never newer than their task, and the current holder has one. */
  ghost predicate Leased(tasks: map<Id, Task>, proofs: set<Proof>)
  {
    && (forall p :: p in proofs ==>
          p.token != "" && p.task in tasks && 1 <= p.generation <= tasks[p.task].generation)
    && (forall p, q :: p in proofs && q in proofs && p.token == q.token ==> p == q)
    && (forall p, q :: p in proofs && q in proofs && p.task == q.task && p.generation == q.generation ==> p == q)
    && (forall t :: t in tasks && tasks[t].token != "" ==>
          Proof(t, tasks[t].owner, tasks[t].token, tasks[t].generation) in proofs)
    && (forall t :: t in tasks && tasks[t].leaseUntil.Some? ==> tasks[t].token != "")
  }

  /** A row counts its rejections, and a claimed row's present content is in its claimant's hands. */
  ghost predicate RowSound(d: Id, row: O.Row<Command>, claims: set<O.Claim<Command>>, rejections: map<Id, nat>)
  {
    && d in rejections && row.attempts == rejections[d] <= O.MAX_ATTEMPTS
    && row.payload.delegation == Some(d)
    && (row.claimedBy != "" ==>
          && row.attempts < O.MAX_ATTEMPTS
          && O.Claim(d, row.claimedBy, row.claimToken, row.payload, row.attempts) in claims)
  }

  ghost predicate Outboxed(outbox: O.Rows<Command>, claims: set<O.Claim<Command>>, rejections: map<Id, nat>)
  {
    && (forall d :: d in outbox ==> RowSound(d, outbox[d], claims, rejections))
    && (forall c :: c in claims ==> c.token != "" && c.owner != "")
    && (forall c, e :: c in claims && e in claims && c.token == e.token ==> c == e)
  }

  /** Every stored or carried command is one its executor was entitled to build. */
  ghost predicate AuthenticPayloads(w: World)
  {
    && (forall d :: d in w.db.outbox ==> Authentic(w.db, w.db.outbox[d].payload))
    && (forall c :: c in w.claims ==> Authentic(w.db, c.payload))
  }

  ghost predicate Inv(w: World)
  {
    && DbInv(w.db, w.preparedFor)
    && Leased(w.db.tasks, w.proofs)
    && Outboxed(w.db.outbox, w.claims, w.rejections)
    && AuthenticPayloads(w)
  }
}
