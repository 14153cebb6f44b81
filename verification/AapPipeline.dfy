/** Every interleaving of the pipeline's writers under one clock. */
module AapPipeline {
  import opened Common
  import opened AapFiles

  /** An evaluation in flight: the file version it read and, later, the jobs it listed. */
  datatype Evaluation = Evaluation(file: FileId, version: int, listed: Option<map<Stage, Job>>)

  /** `ready` remembers the job list on which an evaluation declared a file ready. */
  datatype World = World(db: Db, now: Time, evals: map<nat, Evaluation>, ready: map<FileId, map<Stage, Job>>)

  const START := World(Db(map[], map[]), 0, map[], map[])

  datatype Event =
    | Tick(elapsed: nat)
    | Upload(file: FileId, stagingKey: string, retention: Time)
    | Generate(file: FileId, stored: string, retention: Time)
    | EnqueueStage(key: JobKey, required: bool)
    | UploadFinished(file: FileId, version: int)
    | PromotionDone(file: FileId, version: int, stored: string, newRetention: Option<Time>, stagingDeleted: bool)
    | PromotionFailed(file: FileId, version: int, code: string)
    | FileWrite(file: FileId, op: FileOp)
    | JobWrite(key: JobKey, jobOp: JobOp)
    | CallbackArrives(key: JobKey, delivery: DeliveryId, status: JobStatus)
    | EvalReads(eval: nat, file: FileId)
    | EvalLists(eval: nat)
    | EvalMarks(eval: nat)

  /** Follow-on stages are virus_scan and webhooks; READY and the version bump have callers of their own. */
  predicate Legal(w: World, e: Event)
  {
    match e
    case EnqueueStage(k, _) => k.stage.VirusScan? || k.stage.Webhook?
    case FileWrite(_, op) => op.MarkFailed? || op.ClearStaging? || op.ClearRetention?
    case JobWrite(_, op) => !op.Callback?
    case EvalReads(i, _) => i !in w.evals
    case EvalLists(i) => i in w.evals && w.evals[i].listed == None
    case EvalMarks(i) => i in w.evals && w.evals[i].listed.Some?
    case _ => true
  }

  predicate WorthEvaluating(db: Db, f: FileId)
  {
    f in db.files && !Settled(db.files[f].status) && db.files[f].stored.Some?
  }

  function Mark(w: World, i: nat): World
    requires i in w.evals && w.evals[i].listed.Some?
  {
    var ev := w.evals[i];
    var rest := w.evals - {i};
    match Judge(ev.listed.value)
    case StageOpen => w.(evals := rest)
    case StageFailed =>
      w.(db := WriteFile(w.db, ev.file, MarkProcessingFailed(ev.version, "FILE_PROCESSING_FAILED"), w.now),
         evals := rest)
    case AllDone =>
      if CanWrite(w.db, ev.file, MarkReady(ev.version))
      then w.(db := WriteFile(w.db, ev.file, MarkReady(ev.version), w.now), evals := rest,
              ready := w.ready[ev.file := ev.listed.value])
      else w.(evals := rest)
  }

  function Apply(w: World, e: Event): World
    requires Legal(w, e)
  {
    match e
    case Tick(elapsed) => w.(now := w.now + elapsed)
    case Upload(f, key, retention) => w.(db := InsertFile(w.db, f, NewUpload(key, retention)))
    case Generate(f, stored, retention) => w.(db := InsertFile(w.db, f, NewGenerated(stored, retention, w.now)))
    case EnqueueStage(k, required) => w.(db := InsertJob(w.db, k, required, w.now))
    case UploadFinished(f, v) => w.(db := FinishUploadTx(w.db, f, v, w.now))
    case PromotionDone(f, v, stored, retention, deleted) =>
      w.(db := PromoteTx(w.db, f, PromoteDone(v, stored, false, retention, deleted), w.now))
    case PromotionFailed(f, v, code) => w.(db := PromoteFailedTx(w.db, f, v, code, w.now))
    case FileWrite(f, op) => w.(db := WriteFile(w.db, f, op, w.now))
    case JobWrite(k, op) => w.(db := UpdateJob(w.db, k, op, w.now))
    case CallbackArrives(k, d, s) => w.(db := CallbackTx(w.db, k, Callback(d, s), w.now))
    case EvalReads(i, f) =>
      if WorthEvaluating(w.db, f) then w.(evals := w.evals[i := Evaluation(f, w.db.files[f].version, None)]) else w
    case EvalLists(i) =>
      w.(evals := w.evals[i := w.evals[i].(listed := Some(JobsOf(w.db.jobs, w.evals[i].file)))])
    case EvalMarks(i) => Mark(w, i)
  }

  ghost predicate LegalRun(w: World, es: seq<Event>)
    decreases |es|
  {
    es == [] || (Legal(w, es[0]) && LegalRun(Apply(w, es[0]), es[1..]))
  }

  ghost function Exec(w: World, es: seq<Event>): World
    requires LegalRun(w, es)
    decreases |es|
  {
    if es == [] then w else Exec(Apply(w, es[0]), es[1..])
  }

  // ------------------------------------------------------- invariants

  ghost predicate FileSound(f: File)
  {
    && f.version >= 1
    && (f.stagingKey == None <==> f.stagingDeletedAt.Some?)
    && (f.status == PROCESSING || f.status == READY ==> f.stored.Some?)
    && (f.status == PENDING_UPLOAD || f.status == UPLOADED || f.status == EXPIRED ==> f.stored == None)
    && (f.generated ==> f.status == READY)
  }

  /** Nothing can write a settled job any more: no claim is outstanding on it. A delivered job is only ever
      claimed after its deadline, when callbacks are refused. */
  ghost predicate JobSound(stage: Stage, j: Job, now: Time)
  {
    stage != Promote ==>
      && (Terminal(j.status) ==> j.token == None)
      && (j.status == JOB_DELIVERED && j.token.Some? ==> j.deadline.Some? && j.deadline.value <= now)
  }

  ghost predicate JobHome(db: Db, k: JobKey)
    requires k in db.jobs
  {
    && k.file in db.files
    && (k.stage == MimeDetect ==> Terminal(db.jobs[k].status) && db.files[k.file].stored.Some?)
    && (k.stage == Promote ==> db.files[k.file].status != PENDING_UPLOAD)
  }

  /** An uploaded file has its promote job, and mime_detect once it is promoted. */
  ghost predicate HasStages(db: Db, f: FileId)
    requires f in db.files
  {
    var file := db.files[f];
    && (file.status == UPLOADED || (file.stored.Some? && !file.generated) ==> JobKey(f, Promote) in db.jobs)
    && (file.stored.Some? && !file.generated ==> JobKey(f, MimeDetect) in db.jobs)
  }

  ghost predicate DbSound(db: Db, now: Time)
  {
    && (forall f :: f in db.files ==> FileSound(db.files[f]) && HasStages(db, f))
    && (forall k :: k in db.jobs ==> JobSound(k.stage, db.jobs[k], now) && JobHome(db, k))
  }

  /** A list of jobs still true of the settled jobs in it. */
  ghost predicate Current(jobs: map<JobKey, Job>, f: FileId, listed: map<Stage, Job>)
  {
    forall s :: s in listed && s != Promote && Terminal(listed[s].status) ==>
      JobKey(f, s) in jobs && jobs[JobKey(f, s)] == listed[s]
  }

  ghost predicate EvalSound(db: Db, ev: Evaluation)
  {
    && ev.file in db.files && db.files[ev.file].stored.Some? && !db.files[ev.file].generated
    && (ev.listed.Some? ==> Current(db.jobs, ev.file, ev.listed.value) && MimeDetect in ev.listed.value)
  }

  ghost predicate ReadySound(db: Db, f: FileId, listed: map<Stage, Job>)
  {
    && f in db.files && db.files[f].status == READY && !db.files[f].generated
    && Current(db.jobs, f, listed) && MimeDetect in listed && Judge(listed) == AllDone
  }

  ghost predicate Inv(w: World)
  {
    && DbSound(w.db, w.now)
    && (forall i :: i in w.evals ==> EvalSound(w.db, w.evals[i]))
    && (forall f :: f in w.ready ==> ReadySound(w.db, f, w.ready[f]))
    && (forall f :: f in w.db.files && w.db.files[f].status == READY && !w.db.files[f].generated ==> f in w.ready)
  }

  // ------------------------------------------------------ single steps

  function Rank(s: FileStatus): nat
  {
    match s
    case PENDING_UPLOAD => 0
    case UPLOADED => 1
    case PROCESSING => 2
    case _ => 3
  }

  /** What any write may do to a file. */
  ghost predicate FileMoves(a: File, b: File)
  {
    || b == a
    || (&& b.version == a.version + 1
        && Rank(a.status) <= Rank(b.status)
        && (Settled(a.status) ==> b.status == a.status)
        && (a.stored.Some? ==> b.stored == a.stored)
        && (a.stagingDeletedAt.Some? ==> b.stagingDeletedAt.Some?)
        && b.generated == a.generated)
  }

  /** What any step may do to the tables: files move forward, jobs stay and settled ones are frozen. */
  ghost predicate DbMoves(a: Db, b: Db)
  {
    && (forall f :: f in a.files ==> f in b.files && FileMoves(a.files[f], b.files[f]))
    && (forall k :: k in a.jobs ==>
          k in b.jobs && (k.stage != Promote && Terminal(a.jobs[k].status) ==> b.jobs[k] == a.jobs[k]))
  }

  lemma FileWriteMoves(f: File, op: FileOp, now: Time)
    requires FileSound(f) && Admits(f, op)
    requires op.MarkReady? ==> f.stored.Some?
    ensures FileMoves(f, Written(f, op, now)) && FileSound(Written(f, op, now))
  {
  }

  lemma JobWriteSound(stage: Stage, j: Job, op: JobOp, now: Time)
    requires JobSound(stage, j, now) && Accepts(j, op, now)
    ensures JobSound(stage, Updated(j, op, now), now)
    ensures stage != Promote ==> !Terminal(j.status)
  {
  }

  lemma TickSound(db: Db, now: Time, later: Time)
    requires DbSound(db, now) && now <= later
    ensures DbSound(db, later)
  {
  }

  /** A file row replaced by one that brings no new obligations on its jobs. */
  lemma PutFile(db: Db, f: FileId, file: File, now: Time)
    requires DbSound(db, now) && f in db.files && FileSound(file) && FileMoves(db.files[f], file)
    requires file.stored == db.files[f].stored && file.generated == db.files[f].generated
    requires file.status == UPLOADED ==> db.files[f].status == UPLOADED
    requires file.status == PENDING_UPLOAD ==> db.files[f].status == PENDING_UPLOAD
    ensures var post := db.(files := db.files[f := file]); DbSound(post, now) && DbMoves(db, post)
  {
    hide FileSound, JobSound, FileMoves;
    assert FileMoves(file, file) by { Stays(file); }
    forall g | g in db.files && g != f
      ensures FileMoves(db.files[g], db.files[g])
    {
      Stays(db.files[g]);
    }
  }

  lemma Stays(f: File)
    ensures FileMoves(f, f)
  {
  }

  lemma FileWriteFacts(f: File, op: FileOp, now: Time)
    requires FileSound(f) && Admits(f, op) && !op.FinishUpload? && !op.PromoteDone?
    ensures var w := Written(f, op, now);
            && w.stored == f.stored && w.generated == f.generated
            && (w.status == UPLOADED ==> f.status == UPLOADED)
            && (w.status == PENDING_UPLOAD ==> f.status == PENDING_UPLOAD)
  {
  }

  /** A write to one file that brings no new obligations on its jobs. */
  lemma FileChange(db: Db, f: FileId, op: FileOp, now: Time)
    requires DbSound(db, now) && CanWrite(db, f, op)
    requires !op.FinishUpload? && !op.PromoteDone?
    ensures DbSound(WriteFile(db, f, op, now), now) && DbMoves(db, WriteFile(db, f, op, now))
  {
    assert FileSound(db.files[f]);
    FileWriteMoves(db.files[f], op, now);
    FileWriteFacts(db.files[f], op, now);
    hide Admits, Written, FileSound, FileMoves, DbSound, DbMoves;
    PutFile(db, f, Written(db.files[f], op, now), now);
  }

  /** A write to one job that leaves its files alone. */
  lemma JobChange(db: Db, k: JobKey, j: Job, now: Time)
    requires DbSound(db, now) && k in db.jobs && k.stage != MimeDetect && JobSound(k.stage, j, now)
    requires k.stage != Promote ==> !Terminal(db.jobs[k].status)
    ensures DbSound(WithJob(db, k, j), now) && DbMoves(db, WithJob(db, k, j))
  {
  }

  lemma JobUpdate(db: Db, k: JobKey, op: JobOp, now: Time)
    requires DbSound(db, now)
    ensures DbSound(UpdateJob(db, k, op, now), now) && DbMoves(db, UpdateJob(db, k, op, now))
  {
    if CanUpdate(db, k, op, now) {
      JobWriteSound(k.stage, db.jobs[k], op, now);
      hide Accepts, Updated, JobSound;
      JobChange(db, k, Updated(db.jobs[k], op, now), now);
    }
  }

  /** A pending upload becomes uploaded and gets its promote job. */
  lemma PutUploaded(db: Db, f: FileId, file: File, job: Job, now: Time)
    requires DbSound(db, now) && f in db.files && FileSound(file) && FileMoves(db.files[f], file)
    requires file.status == UPLOADED && file.stored == None && db.files[f].stored == None
    requires JobKey(f, Promote) !in db.jobs
    ensures var post := Db(db.files[f := file], db.jobs[JobKey(f, Promote) := job]);
            DbSound(post, now) && DbMoves(db, post)
  {
    hide FileSound, JobSound, FileMoves;
    assert JobSound(Promote, job, now) by { PromoteIsSound(job, now); }
    forall g | g in db.files && g != f
      ensures FileMoves(db.files[g], db.files[g])
    {
      Stays(db.files[g]);
    }
  }

  lemma PromoteIsSound(job: Job, now: Time)
    ensures JobSound(Promote, job, now)
  {
  }

  lemma UploadStep(db: Db, f: FileId, version: int, now: Time)
    requires DbSound(db, now)
    ensures DbSound(FinishUploadTx(db, f, version, now), now) && DbMoves(db, FinishUploadTx(db, f, version, now))
  {
    var op, k := FinishUpload(version), JobKey(f, Promote);
    SameMoves(db);
    if CanWrite(db, f, op) && k !in db.jobs {
      assert FileSound(db.files[f]);
      FileWriteMoves(db.files[f], op, now);
      hide FileMoves, DbSound, DbMoves;
      PutUploaded(db, f, Written(db.files[f], op, now), NewJob(JOB_PENDING, 0, false, now), now);
    }
  }

  lemma SameMoves(db: Db)
    ensures DbMoves(db, db)
  {
  }

  /** A file gets its permanent object, its promote job is written and mime_detect appears settled. */
  lemma PutPromoted(db: Db, f: FileId, file: File, promote: Job, mime: Job, now: Time)
    requires DbSound(db, now) && f in db.files && FileSound(file) && FileMoves(db.files[f], file)
    requires file.stored.Some? && file.status == PROCESSING && JobSound(MimeDetect, mime, now) && Terminal(mime.status)
    requires JobKey(f, Promote) in db.jobs && JobKey(f, MimeDetect) !in db.jobs
    ensures var post := Db(db.files[f := file], db.jobs[JobKey(f, Promote) := promote][JobKey(f, MimeDetect) := mime]);
            DbSound(post, now) && DbMoves(db, post)
  {
    hide FileSound, JobSound, FileMoves;
    assert JobSound(Promote, promote, now) by { PromoteIsSound(promote, now); }
    forall g | g in db.files && g != f
      ensures FileMoves(db.files[g], db.files[g])
    {
      Stays(db.files[g]);
    }
  }

  lemma UnpromotedJobs(db: Db, f: FileId, now: Time)
    requires DbSound(db, now) && f in db.files && db.files[f].stored == None
    requires db.files[f].status == UPLOADED || db.files[f].status == PROCESSING
    ensures JobKey(f, Promote) in db.jobs && JobKey(f, MimeDetect) !in db.jobs
  {
    assert FileSound(db.files[f]) && HasStages(db, f);
    assert JobKey(f, MimeDetect) in db.jobs ==> JobHome(db, JobKey(f, MimeDetect));
  }

  lemma PromoteStep(db: Db, f: FileId, op: FileOp, now: Time)
    requires DbSound(db, now) && op.PromoteDone? && !op.ready
    ensures DbSound(PromoteTx(db, f, op, now), now) && DbMoves(db, PromoteTx(db, f, op, now))
  {
    SameMoves(db);
    if CanWrite(db, f, op) {
      UnpromotedJobs(db, f, now);
      PromotedFile(db.files[f], op, now);
      assert FileSound(db.files[f]);
      hide DbSound, DbMoves, Admits, Written, FileSound;
      FileWriteMoves(db.files[f], op, now);
      PromotedRows(db, f, op, now);
      PutPromoted(db, f, Written(db.files[f], op, now), Promoted(db.jobs[JobKey(f, Promote)]),
                  NewJob(JOB_SUCCEEDED, 1, false, now), now);
    }
  }

  lemma PromotedFile(f: File, op: FileOp, now: Time)
    requires Admits(f, op) && op.PromoteDone? && !op.ready
    ensures Written(f, op, now).stored.Some? && Written(f, op, now).status == PROCESSING
  {
  }

  function Promoted(p: Job): Job
  {
    p.(status := JOB_SUCCEEDED, attempt := p.attempt + 1, errorCode := None)
  }

  lemma PromotedRows(db: Db, f: FileId, op: FileOp, now: Time)
    requires op.PromoteDone? && CanWrite(db, f, op)
    requires JobKey(f, Promote) in db.jobs && JobKey(f, MimeDetect) !in db.jobs
    ensures var p, m := JobKey(f, Promote), JobKey(f, MimeDetect);
            PromoteTx(db, f, op, now)
            == Db(db.files[f := Written(db.files[f], op, now)],
                  db.jobs[p := Promoted(db.jobs[p])][m := NewJob(JOB_SUCCEEDED, 1, false, now)])
  {
    hide Admits, Written;
  }

  lemma PromoteFailedStep(db: Db, f: FileId, version: int, code: string, now: Time)
    requires DbSound(db, now)
    ensures var post := PromoteFailedTx(db, f, version, code, now); DbSound(post, now) && DbMoves(db, post)
  {
    hide DbSound, DbMoves, Admits, Written;
    SameMoves(db);
    var op, p := PromoteFailed(version, code), JobKey(f, Promote);
    if CanWrite(db, f, op) {
      FileChange(db, f, op, now);
      var d := WriteFile(db, f, op, now);
      if p in d.jobs {
        var job := d.jobs[p].(status := JOB_FAILED, attempt := d.jobs[p].attempt + 1, errorCode := Some(code));
        PromoteIsSound(job, now);
        JobChange(d, p, job, now);
        MovesThenJob(db, d, p, job);
      }
    }
  }

  lemma MovesThenJob(a: Db, b: Db, k: JobKey, job: Job)
    requires DbMoves(a, b) && k in b.jobs && k.stage == Promote
    ensures DbMoves(a, WithJob(b, k, job))
  {
  }

  lemma CallbackStep(db: Db, k: JobKey, op: JobOp, now: Time)
    requires DbSound(db, now) && op.Callback?
    ensures DbSound(CallbackTx(db, k, op, now), now) && DbMoves(db, CallbackTx(db, k, op, now))
  {
    if CanUpdate(db, k, op, now) && k.file in db.files {
      JobUpdate(db, k, op, now);
      var d := UpdateJob(db, k, op, now);
      hide DbSound, DbMoves, UpdateJob, CanUpdate;
      FileChange(d, k.file, Bump, now);
      MovesCompose(db, d, WriteFile(d, k.file, Bump, now));
    }
  }

  lemma MovesCompose(a: Db, b: Db, c: Db)
    requires DbMoves(a, b) && DbMoves(b, c)
    requires a.files == b.files || b.files == c.files
    ensures DbMoves(a, c)
  {
  }

  // ---------------------------------------------------- the whole world

  /** No uploaded file becomes ready. */
  ghost predicate NoneReadied(a: Db, b: Db)
  {
    forall f :: f in b.files && b.files[f].status == READY && !b.files[f].generated ==>
      f in a.files && a.files[f].status == READY && !a.files[f].generated
  }

  lemma DbStep(w: World, e: Event)
    requires Legal(w, e) && DbSound(w.db, w.now) && !e.EvalMarks?
    ensures DbSound(Apply(w, e).db, Apply(w, e).now) && DbMoves(w.db, Apply(w, e).db)
  {
    hide FinishUploadTx, PromoteTx, PromoteFailedTx, CallbackTx, UpdateJob, JobSound;
    match e {
      case Tick(elapsed) => TickSound(w.db, w.now, w.now + elapsed);
      case Upload(f, key, retention) => InsertStep(w.db, f, NewUpload(key, retention), w.now);
      case Generate(f, stored, retention) => InsertStep(w.db, f, NewGenerated(stored, retention, w.now), w.now);
      case EnqueueStage(k, required) => EnqueueStep(w.db, k, required, w.now);
      case UploadFinished(f, v) => UploadStep(w.db, f, v, w.now);
      case PromotionDone(f, v, stored, retention, deleted) =>
        PromoteStep(w.db, f, PromoteDone(v, stored, false, retention, deleted), w.now);
      case PromotionFailed(f, v, code) => PromoteFailedStep(w.db, f, v, code, w.now);
      case FileWrite(f, op) => TryWrite(w.db, f, op, w.now);
      case JobWrite(k, op) => JobUpdate(w.db, k, op, w.now);
      case CallbackArrives(k, d, s) => CallbackStep(w.db, k, Callback(d, s), w.now);
      case _ =>
    }
  }

  lemma InsertStep(db: Db, f: FileId, file: File, now: Time)
    requires DbSound(db, now) && FileSound(file)
    requires file.status == PENDING_UPLOAD || file.generated
    ensures DbSound(InsertFile(db, f, file), now) && DbMoves(db, InsertFile(db, f, file))
  {
    hide JobSound;
  }

  lemma EnqueueStep(db: Db, k: JobKey, required: bool, now: Time)
    requires DbSound(db, now) && k.stage != Promote && k.stage != MimeDetect
    ensures DbSound(InsertJob(db, k, required, now), now) && DbMoves(db, InsertJob(db, k, required, now))
  {
  }

  lemma NoReadying(w: World, e: Event)
    requires Legal(w, e) && !e.EvalMarks?
    ensures NoneReadied(w.db, Apply(w, e).db)
  {
    hide FinishUploadTx, PromoteTx, PromoteFailedTx, CallbackTx, WriteFile, UpdateJob;
    match e
    case FileWrite(f, op) => WriteReadiesNone(w.db, f, op, w.now);
    case UploadFinished(f, v) => UploadReadiesNone(w.db, f, v, w.now);
    case PromotionDone(f, v, stored, retention, deleted) =>
      PromoteReadiesNone(w.db, f, PromoteDone(v, stored, false, retention, deleted), w.now);
    case PromotionFailed(f, v, code) => PromoteFailedReadiesNone(w.db, f, v, code, w.now);
    case JobWrite(k, op) => JobReadiesNone(w.db, k, op, w.now);
    case CallbackArrives(k, d, s) => CallbackReadiesNone(w.db, k, Callback(d, s), w.now);
    case _ =>
  }

  lemma WriteReadiesNone(db: Db, f: FileId, op: FileOp, now: Time)
    requires !op.MarkReady? && (op.PromoteDone? ==> !op.ready)
    ensures NoneReadied(db, WriteFile(db, f, op, now))
  {
  }

  lemma JobReadiesNone(db: Db, k: JobKey, op: JobOp, now: Time)
    ensures UpdateJob(db, k, op, now).files == db.files && NoneReadied(db, UpdateJob(db, k, op, now))
  {
    hide Updated, Accepts;
  }

  lemma UploadReadiesNone(db: Db, f: FileId, v: int, now: Time)
    ensures NoneReadied(db, FinishUploadTx(db, f, v, now))
  {
    hide Written, Admits;
    WriteReadiesNone(db, f, FinishUpload(v), now);
  }

  lemma PromoteReadiesNone(db: Db, f: FileId, op: FileOp, now: Time)
    requires op.PromoteDone? && !op.ready
    ensures NoneReadied(db, PromoteTx(db, f, op, now))
  {
    hide Written, Admits;
    WriteReadiesNone(db, f, op, now);
  }

  lemma PromoteFailedReadiesNone(db: Db, f: FileId, v: int, code: string, now: Time)
    ensures NoneReadied(db, PromoteFailedTx(db, f, v, code, now))
  {
    hide Written, Admits;
    WriteReadiesNone(db, f, PromoteFailed(v, code), now);
  }

  lemma CallbackReadiesNone(db: Db, k: JobKey, op: JobOp, now: Time)
    requires op.Callback?
    ensures NoneReadied(db, CallbackTx(db, k, op, now))
  {
    hide Written, Admits, UpdateJob;
    JobReadiesNone(db, k, op, now);
    WriteReadiesNone(UpdateJob(db, k, op, now), k.file, Bump, now);
  }

  /** Marking is the only way to READY, and it needs every listed required stage to be done. */
  lemma MarkStep(w: World, i: nat)
    requires Inv(w) && i in w.evals && w.evals[i].listed.Some?
    ensures Inv(Mark(w, i)) && DbMoves(w.db, Mark(w, i).db)
  {
    hide Mark, DbSound, DbMoves, EvalSound, ReadySound;
    MarkMoves(w, i);
    MarkKeepsEvaluations(w, i);
    MarkKeepsReady(w, i);
    MarkReadiesOne(w, i);
  }

  lemma MarkKeepsEvaluations(w: World, i: nat)
    requires i in w.evals && w.evals[i].listed.Some? && DbMoves(w.db, Mark(w, i).db)
    requires forall j :: j in w.evals ==> EvalSound(w.db, w.evals[j])
    ensures forall j :: j in Mark(w, i).evals ==> EvalSound(Mark(w, i).db, Mark(w, i).evals[j])
    ensures Mark(w, i).now == w.now
  {
    hide Judge, WriteFile, DbMoves, EvalSound, CanWrite;
    forall j | j in Mark(w, i).evals
      ensures EvalSound(Mark(w, i).db, Mark(w, i).evals[j])
    {
      EvalStable(w.db, Mark(w, i).db, w.evals[j]);
    }
  }

  lemma MarkKeepsReady(w: World, i: nat)
    requires i in w.evals && w.evals[i].listed.Some? && DbMoves(w.db, Mark(w, i).db) && EvalSound(w.db, w.evals[i])
    requires forall f :: f in w.ready ==> ReadySound(w.db, f, w.ready[f])
    ensures forall f :: f in Mark(w, i).ready ==> ReadySound(Mark(w, i).db, f, Mark(w, i).ready[f])
  {
    hide Judge, WriteFile, DbMoves, EvalSound, ReadySound, CanWrite;
    var ev, v := w.evals[i], Mark(w, i);
    if v.ready != w.ready {
      Readied(w.db, ev, w.now);
    }
    forall f | f in v.ready
      ensures ReadySound(v.db, f, v.ready[f])
    {
      if f in w.ready && v.ready[f] == w.ready[f] {
        ReadyStable(w.db, v.db, f, w.ready[f]);
      }
    }
  }

  lemma MarkMoves(w: World, i: nat)
    requires DbSound(w.db, w.now) && i in w.evals && w.evals[i].listed.Some?
    ensures DbSound(Mark(w, i).db, w.now) && DbMoves(w.db, Mark(w, i).db)
  {
    hide DbSound, DbMoves, Judge, Admits, Written;
    SameMoves(w.db);
    var ev := w.evals[i];
    TryWrite(w.db, ev.file, MarkProcessingFailed(ev.version, "FILE_PROCESSING_FAILED"), w.now);
    TryWrite(w.db, ev.file, MarkReady(ev.version), w.now);
  }

  lemma TryWrite(db: Db, f: FileId, op: FileOp, now: Time)
    requires DbSound(db, now) && !op.FinishUpload? && !op.PromoteDone?
    ensures DbSound(WriteFile(db, f, op, now), now) && DbMoves(db, WriteFile(db, f, op, now))
  {
    hide DbSound, DbMoves, Admits, Written;
    SameMoves(db);
    if CanWrite(db, f, op) {
      FileChange(db, f, op, now);
    }
  }

  lemma MarkReadiesOne(w: World, i: nat)
    requires i in w.evals && w.evals[i].listed.Some?
    requires forall f :: f in w.db.files && w.db.files[f].status == READY && !w.db.files[f].generated ==> f in w.ready
    ensures var v := Mark(w, i);
            forall f :: f in v.db.files && v.db.files[f].status == READY && !v.db.files[f].generated ==> f in v.ready
  {
    hide Judge;
  }

  lemma Readied(db: Db, ev: Evaluation, now: Time)
    requires EvalSound(db, ev) && ev.listed.Some? && Judge(ev.listed.value) == AllDone
    requires CanWrite(db, ev.file, MarkReady(ev.version))
    ensures ReadySound(WriteFile(db, ev.file, MarkReady(ev.version), now), ev.file, ev.listed.value)
  {
    hide Judge;
  }

  lemma CurrentStable(a: Db, b: Db, f: FileId, listed: map<Stage, Job>)
    requires DbMoves(a, b) && Current(a.jobs, f, listed)
    ensures Current(b.jobs, f, listed)
  {
  }

  lemma EvalStable(a: Db, b: Db, ev: Evaluation)
    requires DbMoves(a, b) && EvalSound(a, ev)
    ensures EvalSound(b, ev)
  {
    if ev.listed.Some? { CurrentStable(a, b, ev.file, ev.listed.value); }
    assert FileMoves(a.files[ev.file], b.files[ev.file]);
  }

  lemma ReadyStable(a: Db, b: Db, f: FileId, listed: map<Stage, Job>)
    requires DbMoves(a, b) && ReadySound(a, f, listed)
    ensures ReadySound(b, f, listed)
  {
    CurrentStable(a, b, f, listed);
    assert FileMoves(a.files[f], b.files[f]);
  }

  lemma ListingIsCurrent(db: Db, now: Time, ev: Evaluation)
    requires DbSound(db, now) && EvalSound(db, ev)
    ensures EvalSound(db, ev.(listed := Some(JobsOf(db.jobs, ev.file))))
  {
    assert HasStages(db, ev.file);
    assert JobKey(ev.file, MimeDetect) in db.jobs;
  }

  lemma StepKeepsInv(w: World, e: Event)
    requires Legal(w, e) && Inv(w)
    ensures Inv(Apply(w, e)) && DbMoves(w.db, Apply(w, e).db)
  {
    if e.EvalMarks? {
      MarkStep(w, e.eval);
    } else {
      DbStep(w, e);
      NoReadying(w, e);
      OthersStable(w, e);
    }
  }

  lemma OthersStable(w: World, e: Event)
    requires Legal(w, e) && Inv(w) && !e.EvalMarks?
    requires DbSound(Apply(w, e).db, Apply(w, e).now) && DbMoves(w.db, Apply(w, e).db)
    requires NoneReadied(w.db, Apply(w, e).db)
    ensures Inv(Apply(w, e))
  {
    hide FinishUploadTx, PromoteTx, PromoteFailedTx, CallbackTx, UpdateJob, WriteFile, InsertFile, InsertJob, DbSound,
      DbMoves, EvalSound, ReadySound;
    var v := Apply(w, e);
    assert v.ready == w.ready;
    forall f | f in v.ready
      ensures ReadySound(v.db, f, v.ready[f])
    {
      ReadyStable(w.db, v.db, f, w.ready[f]);
    }
    forall j | j in v.evals
      ensures EvalSound(v.db, v.evals[j])
    {
      if j in w.evals && v.evals[j] == w.evals[j] {
        EvalStable(w.db, v.db, w.evals[j]);
      } else if e.EvalLists? {
        ListingIsCurrent(w.db, w.now, w.evals[j]);
      } else {
        FreshEvaluation(w, e.file);
      }
    }
  }

  lemma FreshEvaluation(w: World, f: FileId)
    requires DbSound(w.db, w.now) && WorthEvaluating(w.db, f)
    ensures EvalSound(w.db, Evaluation(f, w.db.files[f].version, None))
  {
  }
}
