/** Rows and transactions of the inbound execution protocol.

    A `Db` is the durable state: one map per table, one map per unique index. Each
    transaction of the gateway is a function from a `Db` to an outcome and the
    committed `Db`; an outcome other than `Ok` commits nothing. `CURRENT_TIMESTAMP`
    is the field `now`, in nanoseconds, and identifiers minted by the program are
    parameters. */
module InboundRows {
  import opened Common
  import O = FinalizeOutbox

  type Id = string

  datatype Status =
    | Pending | Running | WaitingConfirmation | WaitingInteraction
    | Succeeded | Failed | Cancelled | TimedOut

  predicate Terminal(s: Status)
  {
    s == Succeeded || s == Failed || s == Cancelled || s == TimedOut
  }

  datatype Outcome = Ok | Conflict | Invalid | NotFound | PrepareFailed

  /** Who is asking, through which exposure. */
  datatype Scope = Scope(exposure: Id, actorType: string, actorId: string)
  datatype RequestKey = RequestKey(scope: Scope, externalKey: string)
  datatype AliasKey = AliasKey(scope: Scope, externalTask: string)

  datatype Task = Task(
    key: RequestKey, externalTask: string, requestHash: string,
    run: Id, delegation: Option<Id>, status: Status,
    generation: nat, owner: string, token: string, leaseUntil: Option<int>)
  datatype Run = Run(status: Status, lockVersion: nat)
  /** `nested` marks a delegation the running agent makes itself, at a depth above zero; the gateway's own
      delegation of an inbound request is at depth zero. */
  datatype Delegation = Delegation(parentRun: Id, idempotencyKey: string, nested: bool, status: Status)
  /** An AGENT_DELEGATION step; the table is kept in sequence order. */
  datatype Step = Step(id: Id, run: Id, delegation: Id, status: Status)

  /** One fenced completion under lease ownership. */
  datatype Command = Command(
    task: Id, run: Id, owner: string, token: string, generation: int,
    taskStatus: Status, runStatus: Status, delegationStatus: Status,
    expectedRun: Option<Status>, expectedLock: int,
    delegation: Option<Id>, step: Option<Id>)

  datatype Db = Db(
    now: int,
    tasks: map<Id, Task>,
    byKey: map<RequestKey, Id>,
    runs: map<Id, Run>,
    delegations: map<Id, Delegation>,
    byIdempotency: map<string, Id>,
    steps: seq<Step>,
    aliases: map<AliasKey, Id>,
    outbox: O.Rows<Command>)

  datatype Tx = Tx(out: Outcome, db: Db)

  const EMPTY := Db(0, map[], map[], map[], map[], map[], [], map[], map[])

  // ------------------------------------------------------------- claim

  datatype ClaimInput = ClaimInput(
    key: RequestKey, externalTask: string, requestHash: string,
    newTask: Id, prepared: Option<Id>)

  datatype ClaimTx = ClaimTx(out: Outcome, task: Option<Id>, replay: bool, db: Db)

  datatype AliasTx = AliasTx(out: Outcome, aliases: map<AliasKey, Id>)

  /** An external task id is bound once; rebinding it elsewhere is refused. */
  function RegisterAlias(aliases: map<AliasKey, Id>, scope: Scope, externalTask: string, task: Id): AliasTx
  {
    var k := AliasKey(scope, externalTask);
    if externalTask == "" then AliasTx(Ok, aliases)
    else if k !in aliases then AliasTx(Ok, aliases[k := task])
    else if aliases[k] == task then AliasTx(Ok, aliases)
    else AliasTx(Conflict, aliases)
  }

  predicate ValidKey(k: RequestKey)
  {
    k.externalKey != "" && k.scope.exposure != "" && k.scope.actorType != "" && k.scope.actorId != ""
  }

  function FreshTask(c: ClaimInput, run: Id): Task
  {
    Task(c.key, c.externalTask, c.requestHash, run, None, Running, 0, "", "", None)
  }

  function InsertAuthority(db: Db, c: ClaimInput, run: Id): Db
  {
    db.(runs := db.runs[run := Run(Running, 0)],
        tasks := db.tasks[c.newTask := FreshTask(c, run)],
        byKey := db.byKey[c.key := c.newTask])
  }

  /** Replay for a known key with the same body hash; otherwise prepare one run and
      insert run, task and alias together. */
  function ClaimTask(db: Db, c: ClaimInput): ClaimTx
  {
    if !ValidKey(c.key) then ClaimTx(Invalid, None, false, db)
    else if c.key in db.byKey && db.byKey[c.key] in db.tasks then
      var t := db.byKey[c.key];
      if db.tasks[t].requestHash != c.requestHash then ClaimTx(Conflict, None, false, db)
      else
        var reg := RegisterAlias(db.aliases, c.key.scope, c.externalTask, t);
        if reg.out == Ok then ClaimTx(Ok, Some(t), true, db.(aliases := reg.aliases))
        else ClaimTx(reg.out, None, false, db)
    else if c.prepared.None? || c.prepared.value == "" || c.prepared.value in db.runs then
      ClaimTx(PrepareFailed, None, false, db)
    else if c.newTask in db.tasks then ClaimTx(Conflict, None, false, db)
    else
      var reg := RegisterAlias(db.aliases, c.key.scope, c.externalTask, c.newTask);
      if reg.out == Ok then
        ClaimTx(Ok, Some(c.newTask), false, InsertAuthority(db, c, c.prepared.value).(aliases := reg.aliases))
      else ClaimTx(reg.out, None, false, db)
  }

  /** Rows a lookup by external task id can see: primary column or durable alias. */
  predicate Visible(db: Db, scope: Scope, externalTask: string, t: Id)
  {
    && t in db.tasks
    && db.tasks[t].key.scope == scope
    && (|| db.tasks[t].externalTask == externalTask
        || (AliasKey(scope, externalTask) in db.aliases && db.aliases[AliasKey(scope, externalTask)] == t))
  }

  // ------------------------------------------- delegation prewrite, bind

  datatype PrewriteTx = PrewriteTx(out: Outcome, delegation: Option<Id>, replay: bool, db: Db)

  predicate RunOpen(s: Status)
  {
    s == Running || s == WaitingConfirmation || s == WaitingInteraction
  }

  /** The audit writer: replay by idempotency key, or insert a running delegation
      and its step under an open parent run. */
  function Prewrite(db: Db, run: Id, delegation: Id, step: Id, idempotencyKey: string, nested: bool): PrewriteTx
  {
    if idempotencyKey in db.byIdempotency && db.byIdempotency[idempotencyKey] in db.delegations then
      var d := db.byIdempotency[idempotencyKey];
      if db.delegations[d].parentRun == run && db.delegations[d].nested == nested then PrewriteTx(Ok, Some(d), true, db)
      else PrewriteTx(Conflict, None, false, db)
    else if run !in db.runs then PrewriteTx(NotFound, None, false, db)
    else if !RunOpen(db.runs[run].status) then PrewriteTx(Invalid, None, false, db)
    else if delegation in db.delegations || StepIndex(db.steps, step) < |db.steps| then
      PrewriteTx(Conflict, None, false, db)
    else
      PrewriteTx(Ok, Some(delegation), false,
                 db.(delegations := db.delegations[delegation := Delegation(run, idempotencyKey, nested, Running)],
                     byIdempotency := db.byIdempotency[idempotencyKey := delegation],
                     steps := db.steps + [Step(step, run, delegation, Running)]))
  }

  function Bind(db: Db, task: Id, delegation: Id): Tx
  {
    if task == "" || delegation == "" then Tx(Invalid, db)
    else if task in db.tasks && db.tasks[task].delegation == Some(delegation) then Tx(Ok, db)
    else if task in db.tasks && db.tasks[task].status == Running && db.tasks[task].delegation.None? then
      Tx(Ok, db.(tasks := db.tasks[task := db.tasks[task].(delegation := Some(delegation))]))
    else Tx(Conflict, db)
  }

  // ---------------------------------------------------- execution lease

  function LeaseLength(lease: int): (n: int)
    ensures n >= O.MILLISECOND
  {
    if lease <= 0 then 120_000 * O.MILLISECOND
    else if lease / O.MILLISECOND < 1 then O.MILLISECOND
    else (lease / O.MILLISECOND) * O.MILLISECOND
  }

  /** The lease columns still name a live owner. */
  predicate LeaseLive(t: Task, now: int)
  {
    t.leaseUntil.Some? && now <= t.leaseUntil.value
  }

  predicate Reclaimable(t: Task, now: int)
  {
    t.status == Running && (t.generation == 0 || !LeaseLive(t, now))
  }

  datatype LeaseTx = LeaseTx(owned: bool, generation: nat, db: Db)

  function ClaimExecution(db: Db, task: Id, owner: string, lease: int, token: string): LeaseTx
  {
    if task in db.tasks && Reclaimable(db.tasks[task], db.now) then
      var t := db.tasks[task];
      LeaseTx(true, t.generation + 1,
              db.(tasks := db.tasks[task := t.(generation := t.generation + 1, owner := O.EffectiveOwner(owner),
                                               token := token, leaseUntil := Some(db.now + LeaseLength(lease)))]))
    else LeaseTx(false, 0, db)
  }

  /** The proof the fenced statements check: running, same owner and token, live lease. */
  predicate OwnerHolds(db: Db, task: Id, owner: string, token: string)
  {
    && task in db.tasks
    && var t := db.tasks[task];
       t.status == Running && t.owner == owner && t.token == token && token != "" && LeaseLive(t, db.now)
  }

  predicate Holds(db: Db, task: Id, owner: string, token: string, generation: int)
  {
    OwnerHolds(db, task, owner, token) && db.tasks[task].generation == generation
  }

  function Renew(db: Db, task: Id, owner: string, token: string, lease: int): Tx
  {
    if owner == "" || token == "" then Tx(Invalid, db)
    else if OwnerHolds(db, task, owner, token) then
      Tx(Ok, db.(tasks := db.tasks[task := db.tasks[task].(leaseUntil := Some(db.now + LeaseLength(lease)))]))
    else Tx(Conflict, db)
  }

  // ------------------------------------------- run and delegation rows

  predicate RunMatches(r: Run, expected: Option<Status>, lock: int)
  {
    && (if expected.Some? then r.status == expected.value else r.status == Running || r.status == Pending)
    && (lock > 0 ==> r.lockVersion == lock)
  }

  datatype RunTx = RunTx(out: Outcome, runs: map<Id, Run>)

  function TransitionRun(
    runs: map<Id, Run>, run: Id, next: Status, expected: Option<Status>, lock: int, allowAlready: bool): RunTx
  {
    if run in runs && RunMatches(runs[run], expected, lock) then
      RunTx(Ok, runs[run := Run(next, runs[run].lockVersion + 1)])
    else if allowAlready && run in runs && runs[run].status == next then RunTx(Ok, runs)
    else RunTx(Conflict, runs)
  }

  /** Position of the first step with this id, or |steps|. */
  function StepIndex(steps: seq<Step>, id: Id): (i: nat)
    ensures i <= |steps|
    ensures i < |steps| ==> steps[i].id == id
    ensures forall j :: 0 <= j < i ==> steps[j].id != id
  {
    if steps == [] then 0
    else if steps[0].id == id then 0
    else
      var i := StepIndex(steps[1..], id);
      assert forall j :: 0 < j < i + 1 ==> steps[j] == steps[1..][j - 1];
      i + 1
  }

  /** Position of the first step of this run and delegation, or |steps|. */
  function StepOf(steps: seq<Step>, run: Id, delegation: Id): (i: nat)
    ensures i <= |steps|
    ensures i < |steps| ==> steps[i].run == run && steps[i].delegation == delegation
    ensures forall j :: 0 <= j < i ==> steps[j].run != run || steps[j].delegation != delegation
  {
    if steps == [] then 0
    else if steps[0].run == run && steps[0].delegation == delegation then 0
    else
      var i := StepOf(steps[1..], run, delegation);
      assert forall j :: 0 < j < i + 1 ==> steps[j] == steps[1..][j - 1];
      i + 1
  }

  /** The delegation table and its step table. */
  datatype Audit = Audit(delegations: map<Id, Delegation>, steps: seq<Step>)
  datatype AuditTx = AuditTx(out: Outcome, audit: Audit)

  function FinalizeStep(a: Audit, delegation: Id, step: Option<Id>, run: Id, status: Status): AuditTx
  {
    var i := if step.Some? then StepIndex(a.steps, step.value) else StepOf(a.steps, run, delegation);
    if i == |a.steps| then AuditTx(Conflict, a)
    else if a.steps[i].delegation != delegation || a.steps[i].run != run then AuditTx(Conflict, a)
    else if a.steps[i].status == Running || a.steps[i].status == status then
      AuditTx(Ok, a.(steps := a.steps[i := a.steps[i].(status := status)]))
    else AuditTx(Conflict, a)
  }

  /** Open to `status`, or already there; the paired step follows. */
  function FinalizeDelegation(a: Audit, delegation: Id, step: Option<Id>, parentRun: Id, status: Status): AuditTx
  {
    if !Terminal(status) then AuditTx(Invalid, a)
    else if delegation !in a.delegations then AuditTx(NotFound, a)
    else
      var cur := a.delegations[delegation];
      if cur.parentRun != parentRun then AuditTx(Conflict, a)
      else if Terminal(cur.status) then
        if cur.status != status then AuditTx(Conflict, a)
        else FinalizeStep(a, delegation, step, parentRun, status)
      else if cur.status != Pending && cur.status != Running then AuditTx(Conflict, a)
      else
        FinalizeStep(a.(delegations := a.delegations[delegation := cur.(status := status)]),
                     delegation, step, parentRun, status)
  }

  function AuditOf(db: Db): Audit
  {
    Audit(db.delegations, db.steps)
  }

  /** The audit writer's own finalize, without a fence and without a run to compare with. */
  function FinalizeUnfenced(db: Db, delegation: Id, step: Option<Id>, status: Status): Tx
  {
    if delegation !in db.delegations then Tx(if Terminal(status) then NotFound else Invalid, db)
    else
      var tx := FinalizeDelegation(AuditOf(db), delegation, step, db.delegations[delegation].parentRun, status);
      if tx.out == Ok then Tx(Ok, db.(delegations := tx.audit.delegations, steps := tx.audit.steps)) else Tx(tx.out, db)
  }

  /** Finalize the delegation if there is one. */
  function FinalizeIfAny(a: Audit, delegation: Option<Id>, step: Option<Id>, parentRun: Id, status: Status): AuditTx
  {
    if delegation.Some? then FinalizeDelegation(a, delegation.value, step, parentRun, status) else AuditTx(Ok, a)
  }

  // ------------------------------------------------- terminal writers

  predicate WellFormed(c: Command)
  {
    && c.task != "" && c.run != "" && c.owner != "" && c.token != "" && c.generation >= 1
    && Terminal(c.taskStatus) && Terminal(c.runStatus)
  }

  /** All four rows, or the first refusal and nothing. */
  function WriteAll(db: Db, task: Id, row: Task, run: RunTx, audit: AuditTx): Tx
  {
    if run.out != Ok then Tx(run.out, db)
    else if audit.out != Ok then Tx(audit.out, db)
    else Tx(Ok, db.(runs := run.runs, delegations := audit.audit.delegations, steps := audit.audit.steps,
                    tasks := db.tasks[task := row]))
  }

  /** Run, task, delegation and step terminate together under the lease proof. */
  function Finish(db: Db, c: Command): Tx
  {
    if !WellFormed(c) then Tx(Invalid, db)
    else if !Holds(db, c.task, c.owner, c.token, c.generation) then Tx(Conflict, db)
    else if db.tasks[c.task].run != c.run then Tx(Conflict, db)
    else if db.tasks[c.task].delegation.None? then Tx(Conflict, db)
    else
      var bound := db.tasks[c.task].delegation.value;
      if c.delegation.Some? && c.delegation.value != bound then Tx(Conflict, db)
      else if !Terminal(c.delegationStatus) then Tx(Invalid, db)
      else
        WriteAll(db, c.task, db.tasks[c.task].(status := c.taskStatus, leaseUntil := None),
                 TransitionRun(db.runs, c.run, c.runStatus, c.expectedRun, c.expectedLock, false),
                 FinalizeIfAny(AuditOf(db), Some(bound), c.step, c.run, c.delegationStatus))
  }

  /** Closed with the lease invalidated: a higher generation and no token. */
  function Retired(t: Task, status: Status): Task
  {
    t.(status := status, generation := t.generation + 1, token := "", leaseUntil := None)
  }

  /** Terminates whatever is still open and invalidates the lease; a terminal task is left alone. */
  function Cancel(db: Db, task: Id): Tx
  {
    if task == "" then Tx(Invalid, db)
    else if task !in db.tasks then Tx(NotFound, db)
    else if Terminal(db.tasks[task].status) then Tx(Ok, db)
    else
      var t := db.tasks[task];
      WriteAll(db, task, Retired(t, Cancelled), TransitionRun(db.runs, t.run, Cancelled, None, 0, true),
               FinalizeIfAny(AuditOf(db), t.delegation, None, t.run, Cancelled))
  }

  datatype CleanupInput = CleanupInput(
    task: Id, run: Id, delegation: Option<Id>, step: Option<Id>,
    status: Status, delegationStatus: Option<Status>)

  /** No live foreign lease guards the row. */
  predicate Unowned(t: Task, now: int)
  {
    t.status == Running && (t.generation == 0 || t.token == "" || !LeaseLive(t, now))
  }

  function CleanupRun(runs: map<Id, Run>, c: CleanupInput): RunTx
  {
    var running := TransitionRun(runs, c.run, c.status, Some(Running), 0, false);
    if running.out == Ok then running
    else
      var pending := TransitionRun(runs, c.run, c.status, Some(Pending), 0, false);
      if pending.out == Ok then pending else TransitionRun(runs, c.run, c.status, None, 0, true)
  }

  /** The bound delegation, or the one the caller names while none is bound. */
  function CleanupTarget(t: Task, c: CleanupInput): Option<Id>
  {
    if t.delegation.Some? then t.delegation else c.delegation
  }

  function CleanupStatus(c: CleanupInput): Status
  {
    if c.delegationStatus.Some? then c.delegationStatus.value else c.status
  }

  /** Pre-lease cleanup; never past a live lease. */
  function Cleanup(db: Db, c: CleanupInput): Tx
  {
    if c.task == "" || c.run == "" || !Terminal(c.status) then Tx(Invalid, db)
    else if c.task !in db.tasks || !Unowned(db.tasks[c.task], db.now) then Tx(Conflict, db)
    else
      var t := db.tasks[c.task];
      if t.run != c.run then Tx(Conflict, db)
      else if c.delegation.Some? && t.delegation.Some? && c.delegation != t.delegation then Tx(Conflict, db)
      else
        WriteAll(db, c.task, Retired(t, c.status), CleanupRun(db.runs, c),
                 FinalizeIfAny(AuditOf(db), CleanupTarget(t, c), c.step, c.run, CleanupStatus(c)))
  }

  // ------------------------------------------------------------ outbox

  function EnqueueCommand(db: Db, c: Command): Tx
  {
    if c.delegation.None? || c.task == "" || c.token == "" || c.generation < 1 then Tx(Invalid, db)
    else Tx(Ok, db.(outbox := O.Enqueue(db.outbox, db.now, c.delegation.value, c)))
  }
}
