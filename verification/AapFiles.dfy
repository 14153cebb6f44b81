/** Rows of the AAP file pipeline and the guarded writes on them. A file is written by compare-and-set on
    its version; a job is claimed with a token that later writes must present. Ids stand for the pair of
    workspace and id, and a job for its (file, stage) pair, which is unique. */
module AapFiles {
  import opened Common

  type FileId = string
  type Token = string
  type DeliveryId = string
  type Time = int

  datatype FileStatus = PENDING_UPLOAD | UPLOADED | PROCESSING | READY | FAILED | EXPIRED

  datatype File = File(
    status: FileStatus, version: int, generated: bool,
    stagingKey: Option<string>, stagingDeletedAt: Option<Time>,
    stored: Option<string>, errorCode: Option<string>,
    retentionUntil: Option<Time>, readyAt: Option<Time>)

  datatype JobStatus =
    | JOB_PENDING | JOB_RUNNING | JOB_DELIVERED
    | JOB_SUCCEEDED | JOB_FAILED | JOB_SKIPPED | JOB_TIMED_OUT

  datatype Stage = Promote | MimeDetect | VirusScan | Webhook(processor: string)
  datatype JobKey = JobKey(file: FileId, stage: Stage)

  /** `required` is the flag kept in the job's result; the built-in stages are required whatever it says. */
  datatype Job = Job(
    status: JobStatus, attempt: nat, required: bool,
    token: Option<Token>, claimExpires: Option<Time>, availableAt: Time,
    deadline: Option<Time>, delivery: Option<DeliveryId>, errorCode: Option<string>)

  datatype Db = Db(files: map<FileId, File>, jobs: map<JobKey, Job>)

  predicate Terminal(s: JobStatus)
  {
    s == JOB_SUCCEEDED || s == JOB_FAILED || s == JOB_SKIPPED || s == JOB_TIMED_OUT
  }

  predicate Settled(s: FileStatus)
  {
    s == READY || s == FAILED || s == EXPIRED
  }

  predicate Required(stage: Stage, job: Job)
  {
    stage == Promote || stage == MimeDetect || job.required
  }

  // ------------------------------------------------------ file writes

  datatype FileOp =
    | FinishUpload(version: int)
    | MarkFailed(version: int, code: string)
    | PromoteDone(version: int, stored: string, ready: bool, retention: Option<Time>, stagingDeleted: bool)
    | PromoteFailed(version: int, code: string)
    | ClearStaging(version: int, expirePending: bool)
    | Bump
    | MarkReady(version: int)
    | ClearRetention(version: int)
    | MarkProcessingFailed(version: int, code: string)

  /** The guard of each update; version 0 stands for any version where the statement allows it. */
  predicate Admits(f: File, op: FileOp)
  {
    match op
    case FinishUpload(v) => f.status == PENDING_UPLOAD && f.version == v
    case MarkFailed(v, _) =>
      f.status in {PENDING_UPLOAD, UPLOADED, PROCESSING} && (v == 0 || f.version == v) && f.stored == None
    case PromoteDone(v, _, _, _, _) => f.status in {UPLOADED, PROCESSING} && f.stored == None && f.version == v
    case PromoteFailed(v, _) => f.status in {UPLOADED, PROCESSING} && f.stored == None && f.version == v
    case ClearStaging(v, _) => f.stagingKey.Some? && f.stagingDeletedAt == None && (v == 0 || f.version == v)
    case Bump => true
    case MarkReady(v) => f.status == PROCESSING && f.stored.Some? && f.version == v
    case ClearRetention(v) => f.status == READY && f.version == v && f.retentionUntil.Some?
    case MarkProcessingFailed(v, _) => f.status in {UPLOADED, PROCESSING} && f.version == v
  }

  function Written(f: File, op: FileOp, now: Time): File
  {
    var next := f.version + 1;
    match op
    case FinishUpload(_) => f.(status := UPLOADED, version := next)
    case MarkFailed(_, code) => f.(status := FAILED, errorCode := Some(code), version := next)
    case PromoteDone(_, stored, ready, retention, stagingDeleted) =>
      f.(stored := Some(stored), status := if ready then READY else PROCESSING,
         readyAt := if ready then Some(now) else f.readyAt,
         stagingKey := if stagingDeleted then None else f.stagingKey,
         stagingDeletedAt := if stagingDeleted then Some(now) else f.stagingDeletedAt,
         retentionUntil := if retention.Some? then retention else f.retentionUntil,
         errorCode := None, version := next)
    case PromoteFailed(_, code) => f.(status := FAILED, errorCode := Some(code), version := next)
    case ClearStaging(_, expirePending) =>
      var expire := expirePending && f.status == PENDING_UPLOAD;
      f.(stagingKey := None, stagingDeletedAt := Some(now), status := if expire then EXPIRED else f.status,
         errorCode := if expire && f.errorCode == None then Some("FILE_UPLOAD_EXPIRED") else f.errorCode,
         version := next)
    case Bump => f.(version := next)
    case MarkReady(_) => f.(status := READY, readyAt := Some(now), errorCode := None, version := next)
    case ClearRetention(_) => f.(retentionUntil := None, version := next)
    case MarkProcessingFailed(_, code) => f.(status := FAILED, errorCode := Some(code), version := next)
  }

  predicate CanWrite(db: Db, f: FileId, op: FileOp)
  {
    f in db.files && Admits(db.files[f], op)
  }

  function WriteFile(db: Db, f: FileId, op: FileOp, now: Time): Db
  {
    if CanWrite(db, f, op) then db.(files := db.files[f := Written(db.files[f], op, now)]) else db
  }

  // ------------------------------------------------------- job writes

  datatype JobOp =
    | Claim(token: Token, lease: int)
    | Release(token: Token, status: JobStatus, next: Option<Time>, code: Option<string>)
    | Complete(token: Token, status: JobStatus, code: Option<string>, required: Option<bool>)
    | Deliver(token: Token, delivery: DeliveryId, deadline: Time, flag: bool)
    | Callback(delivery: DeliveryId, status: JobStatus)

  predicate Claimable(j: Job, now: Time)
  {
    && ((j.status == JOB_PENDING && j.availableAt <= now)
        || (j.status == JOB_DELIVERED && j.deadline.Some? && j.deadline.value <= now))
    && (j.token == None || j.claimExpires == None || j.claimExpires.value <= now)
  }

  predicate Accepts(j: Job, op: JobOp, now: Time)
  {
    match op
    case Claim(_, _) => Claimable(j, now)
    case Release(t, _, _, _) => j.token == Some(t)
    case Complete(t, s, _, _) => (Terminal(s) || s == JOB_DELIVERED) && j.token == Some(t)
    case Deliver(t, _, _, _) => j.token == Some(t) && j.status == JOB_RUNNING
    case Callback(d, s) =>
      && (s == JOB_SUCCEEDED || s == JOB_FAILED)
      && j.delivery == Some(d) && j.status == JOB_DELIVERED && (j.deadline.Some? ==> now < j.deadline.value)
  }

  function Updated(j: Job, op: JobOp, now: Time): Job
  {
    match op
    case Claim(t, lease) =>
      j.(token := Some(t), claimExpires := Some(now + lease),
         status := if j.status == JOB_PENDING then JOB_RUNNING else j.status,
         attempt := if j.status == JOB_PENDING then j.attempt + 1 else j.attempt)
    case Release(_, s, next, code) =>
      j.(status := s, token := None, claimExpires := None,
         availableAt := if next.Some? then next.value else j.availableAt,
         errorCode := if code.Some? then code else j.errorCode)
    case Complete(_, s, code, required) =>
      j.(status := s, token := None, claimExpires := None, errorCode := code,
         required := if required.Some? then required.value else j.required)
    case Deliver(_, d, deadline, required) =>
      j.(status := JOB_DELIVERED, delivery := Some(d), deadline := Some(deadline), token := None, claimExpires := None,
         errorCode := None, required := required)
    case Callback(_, s) => j.(status := s, errorCode := if s == JOB_FAILED then j.errorCode else None)
  }

  predicate CanUpdate(db: Db, k: JobKey, op: JobOp, now: Time)
  {
    k in db.jobs && Accepts(db.jobs[k], op, now)
  }

  function UpdateJob(db: Db, k: JobKey, op: JobOp, now: Time): Db
  {
    if CanUpdate(db, k, op, now) then db.(jobs := db.jobs[k := Updated(db.jobs[k], op, now)]) else db
  }

  function NewJob(status: JobStatus, attempt: nat, required: bool, now: Time): Job
  {
    Job(status, attempt, required, None, None, now, None, None, None)
  }

  // ------------------------------------------- writes across both rows

  function NewUpload(stagingKey: string, retention: Time): File
  {
    File(PENDING_UPLOAD, 1, false, Some(stagingKey), None, None, None, Some(retention), None)
  }

  /** A file an agent produced arrives complete. */
  function NewGenerated(stored: string, retention: Time, now: Time): File
  {
    File(READY, 1, true, None, Some(now), Some(stored), None, Some(retention), Some(now))
  }

  function InsertFile(db: Db, f: FileId, file: File): Db
  {
    if f in db.files then db else db.(files := db.files[f := file])
  }

  /** Inserting a stage that is already there changes nothing. */
  function InsertJob(db: Db, k: JobKey, required: bool, now: Time): Db
  {
    if k.file !in db.files || k in db.jobs then db
    else db.(jobs := db.jobs[k := NewJob(JOB_PENDING, 0, required, now)])
  }

  /** The upload's compare-and-set and its promote job, both or neither. */
  function FinishUploadTx(db: Db, f: FileId, version: int, now: Time): Db
  {
    var k := JobKey(f, Promote);
    if !CanWrite(db, f, FinishUpload(version)) || k in db.jobs then db
    else
      var d := WriteFile(db, f, FinishUpload(version), now);
      d.(jobs := d.jobs[k := NewJob(JOB_PENDING, 0, false, now)])
  }

  function WithJob(db: Db, k: JobKey, j: Job): Db
  {
    db.(jobs := db.jobs[k := j])
  }

  /** Promote's result: the file, the promote job (whose claim it does not touch) and mime_detect. */
  function PromoteTx(db: Db, f: FileId, op: FileOp, now: Time): Db
    requires op.PromoteDone?
  {
    if !CanWrite(db, f, op) then db
    else
      var p, m := JobKey(f, Promote), JobKey(f, MimeDetect);
      var d := WriteFile(db, f, op, now);
      var d1 := if p in d.jobs
                then WithJob(d, p, d.jobs[p].(status := JOB_SUCCEEDED, attempt := d.jobs[p].attempt + 1,
                                              errorCode := None))
                else d;
      if m in d1.jobs
      then WithJob(d1, m, d1.jobs[m].(status := JOB_SUCCEEDED, attempt := d1.jobs[m].attempt + 1, required := false,
                                      errorCode := None))
      else WithJob(d1, m, NewJob(JOB_SUCCEEDED, 1, false, now))
  }

  function PromoteFailedTx(db: Db, f: FileId, version: int, code: string, now: Time): Db
  {
    if !CanWrite(db, f, PromoteFailed(version, code)) then db
    else
      var p := JobKey(f, Promote);
      var d := WriteFile(db, f, PromoteFailed(version, code), now);
      if p in d.jobs
      then WithJob(d, p, d.jobs[p].(status := JOB_FAILED, attempt := d.jobs[p].attempt + 1, errorCode := Some(code)))
      else d
  }

  /** A timely callback settles the job and bumps the file's version. */
  function CallbackTx(db: Db, k: JobKey, op: JobOp, now: Time): Db
    requires op.Callback?
  {
    if !CanUpdate(db, k, op, now) || k.file !in db.files then db
    else WriteFile(UpdateJob(db, k, op, now), k.file, Bump, now)
  }

  // ------------------------------------------------------- evaluation

  datatype Verdict = StageFailed | StageOpen | AllDone

  function JobsOf(jobs: map<JobKey, Job>, f: FileId): map<Stage, Job>
  {
    map k | k in jobs && k.file == f :: k.stage := jobs[k]
  }

  predicate Broken(stage: Stage, j: Job)
  {
    Required(stage, j) && (j.status == JOB_FAILED || j.status == JOB_TIMED_OUT)
  }

  predicate Fine(stage: Stage, j: Job)
  {
    Required(stage, j) ==> j.status == JOB_SUCCEEDED || j.status == JOB_SKIPPED
  }

  function Judge(stages: map<Stage, Job>): Verdict
  {
    if exists s :: s in stages && Broken(s, stages[s]) then StageFailed
    else if forall s :: s in stages ==> Fine(s, stages[s]) then AllDone
    else StageOpen
  }

  /** An evaluation without anything in between: a settled file or one without its object is left alone;
      otherwise the verdict on its jobs decides. */
  function EvaluateTx(db: Db, f: FileId, now: Time): Db
  {
    if f !in db.files || Settled(db.files[f].status) || db.files[f].stored.None? then db
    else
      var v := db.files[f].version;
      match Judge(JobsOf(db.jobs, f))
      case StageFailed => WriteFile(db, f, MarkProcessingFailed(v, "FILE_PROCESSING_FAILED"), now)
      case StageOpen => db
      case AllDone => WriteFile(db, f, MarkReady(v), now)
  }
}
