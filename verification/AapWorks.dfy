/** That the pipeline's writes do what they are called for, exactly when they should. */
module AapWorks {
  import opened Common
  import opened AapFiles
  import opened AapPipeline
  import opened AapTheorems

  // -------------------------------------------------------- callbacks

  /** A delivered job waiting for this callback, in time. */
  predicate Awaits(db: Db, k: JobKey, d: DeliveryId, now: Time)
  {
    && k in db.jobs && k.file in db.files && db.jobs[k].status == JOB_DELIVERED && db.jobs[k].delivery == Some(d)
    && (db.jobs[k].deadline == None || now < db.jobs[k].deadline.value)
  }

  /** A callback settles the job exactly when the job awaits it, and then in the status reported; it bumps the file's
      version and touches nothing else. */
  lemma CallbackExactly(w: World, k: JobKey, d: DeliveryId, s: JobStatus)
    requires s == JOB_SUCCEEDED || s == JOB_FAILED
    ensures var v := Apply(w, CallbackArrives(k, d, s)).db;
            if Awaits(w.db, k, d, w.now) then
              && v.jobs == w.db.jobs[k := w.db.jobs[k].(
                               status := s, errorCode := if s == JOB_FAILED then w.db.jobs[k].errorCode else None)]
              && v.files == w.db.files[k.file := w.db.files[k.file].(version := w.db.files[k.file].version + 1)]
            else v == w.db
  {
  }

  // ------------------------------------------------------- evaluation

  /** A stage that must end well: promote and mime_detect always, others where their flag says so. */
  predicate Counts(k: JobKey, j: Job)
  {
    k.stage == Promote || k.stage == MimeDetect || j.required
  }

  predicate EndedBadly(j: Job)
  {
    j.status == JOB_FAILED || j.status == JOB_TIMED_OUT
  }

  predicate EndedWell(j: Job)
  {
    j.status == JOB_SUCCEEDED || j.status == JOB_SKIPPED
  }

  ghost predicate SomeStageFailed(db: Db, f: FileId)
  {
    exists k :: k in db.jobs && k.file == f && Counts(k, db.jobs[k]) && EndedBadly(db.jobs[k])
  }

  ghost predicate AllStagesDone(db: Db, f: FileId)
  {
    forall k :: k in db.jobs && k.file == f && Counts(k, db.jobs[k]) ==> EndedWell(db.jobs[k])
  }

  lemma JudgeExactly(db: Db, f: FileId)
    ensures Judge(JobsOf(db.jobs, f)) == StageFailed <==> SomeStageFailed(db, f)
    ensures Judge(JobsOf(db.jobs, f)) == AllDone <==> AllStagesDone(db, f)
  {
    var stages := JobsOf(db.jobs, f);
    assert forall k :: k in db.jobs && k.file == f ==> k.stage in stages && stages[k.stage] == db.jobs[k];
    forall s | s in stages
      ensures JobKey(f, s) in db.jobs && stages[s] == db.jobs[JobKey(f, s)]
    {
    }
    if SomeStageFailed(db, f) {
      var k :| k in db.jobs && k.file == f && Counts(k, db.jobs[k]) && EndedBadly(db.jobs[k]);
      assert Broken(k.stage, stages[k.stage]) && !Fine(k.stage, stages[k.stage]);
    }
    if Judge(stages) == StageFailed {
      var s :| s in stages && Broken(s, stages[s]);
      assert EndedBadly(db.jobs[JobKey(f, s)]);
    }
    if AllStagesDone(db, f) {
      assert forall s :: s in stages ==> Fine(s, stages[s]);
    }
    if Judge(stages) == AllDone {
      forall k | k in db.jobs && k.file == f && Counts(k, db.jobs[k])
        ensures EndedWell(db.jobs[k])
      {
        assert Fine(k.stage, stages[k.stage]);
      }
    }
  }

  /** In every reachable state evaluating an unsettled promoted file, undisturbed, fails it exactly when some stage that
      counts ended badly, makes it ready exactly when all of them ended well, and otherwise leaves it alone; stages
      that do not count never matter. */
  lemma EvaluationExactly(w: World, f: FileId)
    requires Reachable(w) && WorthEvaluating(w.db, f)
    ensures var v := EvaluateTx(w.db, f, w.now);
            && f in v.files && v.jobs == w.db.jobs && v.files[f].stored == w.db.files[f].stored
            && v.files[f].status == (if SomeStageFailed(w.db, f) then FAILED
                                     else if AllStagesDone(w.db, f) then READY else w.db.files[f].status)
            && (!SomeStageFailed(w.db, f) && !AllStagesDone(w.db, f) ==> v == w.db)
  {
    hide Reachable, Judge, JobsOf, SomeStageFailed, AllStagesDone, HasStages;
    SoundFile(w, f);
    JudgeExactly(w.db, f);
  }

  /** The evaluation's three events in a row. */
  function Evaluated(w: World, i: nat, f: FileId): World
    requires i !in w.evals && WorthEvaluating(w.db, f)
  {
    Apply(Apply(Apply(w, EvalReads(i, f)), EvalLists(i)), EvalMarks(i))
  }

  lemma MayRead(w: World, i: nat, f: FileId)
    requires i !in w.evals
    ensures Legal(w, EvalReads(i, f))
  {
  }

  lemma EvaluatedReachable(w: World, i: nat, f: FileId)
    requires Reachable(w) && i !in w.evals && WorthEvaluating(w.db, f)
    ensures Reachable(Evaluated(w, i, f)) && Evaluated(w, i, f).db == EvaluateTx(w.db, f, w.now)
  {
    hide Reachable, Apply, EvaluateTx, Legal, WorthEvaluating;
    EvaluationIsItsEvents(w, i, f);
    assert Legal(w, EvalReads(i, f)) by { MayRead(w, i, f); }
    var w1 := Apply(w, EvalReads(i, f));
    ReachableNext(w, EvalReads(i, f));
    ReachableNext(w1, EvalLists(i));
    ReachableNext(Apply(w1, EvalLists(i)), EvalMarks(i));
  }

  /** A timely failure report on a required stage, followed by the evaluation it triggers, fails the file for good: no
      continuation makes it ready. */
  lemma FailedCallbackFailsTheFile(w: World, k: JobKey, d: DeliveryId, i: nat, es: seq<Event>)
    requires Reachable(w) && Awaits(w.db, k, d, w.now) && w.db.jobs[k].required
    requires WorthEvaluating(w.db, k.file) && i !in w.evals
    ensures var u := Apply(w, CallbackArrives(k, d, JOB_FAILED));
            && u.evals == w.evals && WorthEvaluating(u.db, k.file)
            && var v := Evaluated(u, i, k.file);
            && k.file in v.db.files && v.db.files[k.file].status == FAILED
            && (LegalRun(v, es) ==>
                  k.file in Exec(v, es).db.files && Exec(v, es).db.files[k.file].status == FAILED)
  {
    hide Reachable;
    var e := CallbackArrives(k, d, JOB_FAILED);
    var u := Apply(w, e);
    CallbackExactly(w, k, d, JOB_FAILED);
    assert WorthEvaluating(u.db, k.file) && u.evals == w.evals;
    ReachableNext(w, e);
    hide Apply, Legal, EvaluateTx, LegalRun, Exec, Evaluated;
    assert Counts(k, u.db.jobs[k]) && EndedBadly(u.db.jobs[k]);
    assert SomeStageFailed(u.db, k.file);
    EvaluationExactly(u, k.file);
    EvaluatedReachable(u, i, k.file);
    if LegalRun(Evaluated(u, i, k.file), es) {
      FileLifecycle(Evaluated(u, i, k.file), es, k.file);
    }
  }

  // ------------------------------------------------------------- jobs

  /** A stage enqueued for an existing file is pending, unclaimed and due at once; a stage already there
      is untouched. */
  lemma EnqueueExactly(w: World, k: JobKey, required: bool)
    requires Legal(w, EnqueueStage(k, required)) && k.file in w.db.files
    ensures var v := Apply(w, EnqueueStage(k, required)).db;
            && v.files == w.db.files && k in v.jobs
            && (k in w.db.jobs ==> v == w.db)
            && (k !in w.db.jobs ==>
                  && v.jobs == w.db.jobs[k := v.jobs[k]] && v.jobs[k].status == JOB_PENDING
                  && v.jobs[k].required == required && v.jobs[k].attempt == 0 && Claimable(v.jobs[k], w.now))
  {
  }

  /** The job after these writes, if each is accepted. */
  function After(j: Job, ops: seq<(JobOp, Time)>): (r: Option<Job>)
    decreases |ops|
  {
    if ops == [] then Some(j)
    else if !Accepts(j, ops[0].0, ops[0].1) then None
    else After(Updated(j, ops[0].0, ops[0].1), ops[1..])
  }

  lemma AfterStep(j: Job, op: JobOp, now: Time, rest: seq<(JobOp, Time)>)
    requires Accepts(j, op, now)
    ensures After(j, [(op, now)] + rest) == After(Updated(j, op, now), rest)
  {
    assert ([(op, now)] + rest)[1..] == rest;
  }

  /** The way of a webhook: a due job is claimed, delivered, and settled by its callback in the status reported. */
  lemma WebhookRoundTrip(j: Job, now: Time, t: Token, lease: int, d: DeliveryId, later: Time, deadline: Time,
                         flag: bool, back: Time, s: JobStatus)
    requires j.status == JOB_PENDING && j.token == None && j.availableAt <= now
    requires (s == JOB_SUCCEEDED || s == JOB_FAILED) && back < deadline
    ensures var r := After(j, [(Claim(t, lease), now), (Deliver(t, d, deadline, flag), later), (Callback(d, s), back)]);
            && r.Some? && r.value.status == s && r.value.delivery == Some(d) && r.value.deadline == Some(deadline)
            && r.value.attempt == j.attempt + 1 && r.value.required == flag && r.value.token == None
  {
    hide After;
    var a, b, c := (Claim(t, lease), now), (Deliver(t, d, deadline, flag), later), (Callback(d, s), back);
    assert [a, b, c] == [a] + ([b] + ([c] + []));
    AfterStep(j, a.0, now, [b] + ([c] + []));
    var j1 := Updated(j, a.0, now);
    AfterStep(j1, b.0, later, [c] + []);
    var j2 := Updated(j1, b.0, later);
    AfterStep(j2, c.0, back, []);
    AfterNothing(Updated(j2, c.0, back));
  }

  lemma AfterNothing(j: Job)
    ensures After(j, []) == Some(j)
  {
  }

  /** Past its deadline a delivered job takes no callback; the sweep claims it, keeps it from other sweeps for its
      lease, and times it out. */
  lemma TimeoutRoundTrip(j: Job, now: Time, t: Token, lease: int, d: DeliveryId, s: JobStatus, code: Option<string>,
                         flag: Option<bool>, later: Time)
    requires j.status == JOB_DELIVERED && j.deadline.Some? && j.deadline.value <= now <= later
    requires j.token == None || j.claimExpires == None || j.claimExpires.value <= now
    ensures !Accepts(j, Callback(d, s), now)
    ensures Claimable(Updated(j, Claim(t, lease), now), later) <==> now + lease <= later
    ensures var r := After(j, [(Claim(t, lease), now), (Complete(t, JOB_TIMED_OUT, code, flag), now)]);
            && r.Some? && r.value.status == JOB_TIMED_OUT && r.value.token == None && r.value.errorCode == code
            && r.value.required == (if flag.Some? then flag.value else j.required) && r.value.attempt == j.attempt
            && r.value.delivery == j.delivery
  {
    hide After;
    var a, b := (Claim(t, lease), now), (Complete(t, JOB_TIMED_OUT, code, flag), now);
    assert [a, b] == [a] + ([b] + []);
    AfterStep(j, a.0, now, [b] + []);
    var j1 := Updated(j, a.0, now);
    AfterStep(j1, b.0, now, []);
    AfterNothing(Updated(j1, b.0, now));
  }

  /** A claim keeps a pending job for its worker, whose release gives it back in the status and at the time it names. */
  lemma ReleaseRoundTrip(j: Job, now: Time, t: Token, lease: int, s: JobStatus, next: Option<Time>,
                         code: Option<string>, later: Time)
    requires j.status == JOB_PENDING && j.token == None && j.availableAt <= now
    ensures !Claimable(Updated(j, Claim(t, lease), now), later)
    ensures var r := After(j, [(Claim(t, lease), now), (Release(t, s, next, code), now)]);
            && r.Some? && r.value.status == s && r.value.token == None && r.value.attempt == j.attempt + 1
            && r.value.availableAt == (if next.Some? then next.value else j.availableAt)
            && r.value.errorCode == (if code.Some? then code else j.errorCode) && r.value.required == j.required
            && (s == JOB_PENDING ==> (Claimable(r.value, later) <==> r.value.availableAt <= later))
  {
    hide After;
    var a, b := (Claim(t, lease), now), (Release(t, s, next, code), now);
    assert [a, b] == [a] + ([b] + []);
    AfterStep(j, a.0, now, [b] + []);
    var j1 := Updated(j, a.0, now);
    AfterStep(j1, b.0, now, []);
    AfterNothing(Updated(j1, b.0, now));
  }

  /** Time until a job is due and free. */
  function Wait(j: Job, now: Time): nat
  {
    var due := if j.status == JOB_PENDING then j.availableAt - now
               else if j.deadline.Some? then j.deadline.value - now else 0;
    var free := if j.claimExpires.Some? then j.claimExpires.value - now else 0;
    if due >= free && due >= 0 then due else if free >= 0 then free else 0
  }

  lemma WaitMakesClaimable(j: Job, now: Time)
    requires j.status == JOB_PENDING || (j.status == JOB_DELIVERED && j.deadline.Some?)
    ensures Claimable(j, now + Wait(j, now))
  {
  }

  /** What a job write does to the world. */
  lemma JobWritten(w: World, k: JobKey, op: JobOp)
    requires k in w.db.jobs && Accepts(w.db.jobs[k], op, w.now) && !op.Callback?
    ensures Legal(w, JobWrite(k, op))
    ensures var v := Apply(w, JobWrite(k, op));
            && v.db.files == w.db.files && v.now == w.now && k in v.db.jobs
            && v.db.jobs[k] == Updated(w.db.jobs[k], op, w.now)
  {
    hide Accepts, Updated;
  }

  lemma Waited(w: World, dt: nat)
    ensures Legal(w, Tick(dt)) && Apply(w, Tick(dt)) == w.(now := w.now + dt)
  {
  }

  /** No dead end short of a lost worker: from every state a pending job can be settled in any status, and a delivered
      one with a deadline be timed out, by waiting, claiming and completing. */
  lemma JobCanSettle(w: World, k: JobKey, t: Token, s: JobStatus)
    requires k in w.db.jobs && Terminal(s)
    requires var j := w.db.jobs[k];
             j.status == JOB_PENDING || (j.status == JOB_DELIVERED && j.deadline.Some? && s == JOB_TIMED_OUT)
    ensures var es := [Tick(Wait(w.db.jobs[k], w.now)), JobWrite(k, Claim(t, 1000)),
                       JobWrite(k, Complete(t, s, None, None))];
            && LegalRun(w, es) && k in Exec(w, es).db.jobs && Exec(w, es).db.jobs[k].status == s
            && Exec(w, es).db.files == w.db.files
  {
    hide Apply, Legal, LegalRun, Exec, Wait, Claimable;
    var tick, claim := Tick(Wait(w.db.jobs[k], w.now)), JobWrite(k, Claim(t, 1000));
    var complete := JobWrite(k, Complete(t, s, None, None));
    WaitMakesClaimable(w.db.jobs[k], w.now);
    Waited(w, Wait(w.db.jobs[k], w.now));
    var w1 := Apply(w, tick);
    JobWritten(w1, k, Claim(t, 1000));
    var w2 := Apply(w1, claim);
    JobWritten(w2, k, Complete(t, s, None, None));
    ThreeEvents(w, [tick, claim, complete], w1, w2, Apply(w2, complete));
  }

  lemma ThreeEvents(w: World, es: seq<Event>, w1: World, w2: World, w3: World)
    requires |es| == 3
    requires Legal(w, es[0]) && w1 == Apply(w, es[0])
    requires Legal(w1, es[1]) && w2 == Apply(w1, es[1])
    requires Legal(w2, es[2]) && w3 == Apply(w2, es[2])
    ensures LegalRun(w, es) && Exec(w, es) == w3
  {
    hide Legal, Apply;
    var tail := es[1..];
    assert tail[0] == es[1] && tail[1..][0] == es[2] && tail[1..][1..] == [];
    assert LegalRun(w3, []) && LegalRun(w2, tail[1..]) && LegalRun(w1, tail);
    assert Exec(w2, tail[1..]) == w3 && Exec(w1, tail) == w3;
  }

  // ------------------------------------------------------------ files

  /** New files: an upload waits with its staging key, an agent's output arrives ready with its object. */
  lemma NewFilesExactly(w: World, f: FileId, key: string, stored: string, retention: Time)
    ensures var v := Apply(w, Upload(f, key, retention)).db;
            if f in w.db.files then v == w.db
            else && v.jobs == w.db.jobs && v.files == w.db.files[f := v.files[f]]
                 && v.files[f].status == PENDING_UPLOAD && v.files[f].version == 1 && !v.files[f].generated
                 && v.files[f].stagingKey == Some(key) && v.files[f].stored == None
                 && v.files[f].retentionUntil == Some(retention)
    ensures var v := Apply(w, Generate(f, stored, retention)).db;
            if f in w.db.files then v == w.db
            else && v.jobs == w.db.jobs && v.files == w.db.files[f := v.files[f]]
                 && v.files[f].status == READY && v.files[f].version == 1 && v.files[f].generated
                 && v.files[f].stored == Some(stored) && v.files[f].retentionUntil == Some(retention)
  {
  }

  lemma SoundFile(w: World, f: FileId)
    requires Reachable(w) && f in w.db.files
    ensures FileSound(w.db.files[f]) && HasStages(w.db, f)
  {
    hide Reachable, EvalSound, ReadySound, JobSound, JobHome;
    ReachableInv(w);
  }

  lemma PendingHasNoPromote(w: World, f: FileId)
    requires Reachable(w) && f in w.db.files && w.db.files[f].status == PENDING_UPLOAD
    ensures JobKey(f, Promote) !in w.db.jobs
  {
    hide Reachable, EvalSound, ReadySound, JobSound, FileSound, HasStages;
    ReachableInv(w);
    assert JobKey(f, Promote) in w.db.jobs ==> JobHome(w.db, JobKey(f, Promote));
  }

  /** In every reachable state a pending upload can be finished, which queues its promotion, failed, or expired, by
      whoever names its version or, for the last two, no version. */
  lemma PendingFileMoves(w: World, f: FileId, v: int, code: string)
    requires Reachable(w) && f in w.db.files && w.db.files[f].status == PENDING_UPLOAD
    requires v == 0 || v == w.db.files[f].version
    ensures var file := w.db.files[f];
            var up := FinishUploadTx(w.db, f, file.version, w.now);
            && f in up.files && up.files[f] == file.(status := UPLOADED, version := file.version + 1)
            && JobKey(f, Promote) in up.jobs && up.jobs[JobKey(f, Promote)].status == JOB_PENDING
            && Claimable(up.jobs[JobKey(f, Promote)], w.now)
    ensures var file := w.db.files[f];
            WriteFile(w.db, f, MarkFailed(v, code), w.now)
            == w.db.(files := w.db.files[f :=
                 file.(status := FAILED, errorCode := Some(code), version := file.version + 1)])
    ensures var file := w.db.files[f];
            WriteFile(w.db, f, ClearStaging(v, true), w.now)
            == if file.stagingKey.None? then w.db
               else w.db.(files := w.db.files[f := file.(
                            status := EXPIRED, stagingKey := None, stagingDeletedAt := Some(w.now),
                            errorCode := if file.errorCode == None then Some("FILE_UPLOAD_EXPIRED") else file.errorCode,
                            version := file.version + 1)])
  {
    hide Reachable;
    SoundFile(w, f);
    PendingHasNoPromote(w, f);
  }

  /** In every reachable state an uploaded file can be promoted, which records the object and settles promote and
      mime_detect, or failed, with or without its promote job, by whoever names its version. */
  lemma UploadedFileMoves(w: World, f: FileId, stored: string, retention: Option<Time>, deleted: bool, code: string)
    requires Reachable(w) && f in w.db.files && w.db.files[f].status == UPLOADED
    ensures JobKey(f, Promote) in w.db.jobs && JobKey(f, MimeDetect) !in w.db.jobs
    ensures var file, p, m := w.db.files[f], JobKey(f, Promote), JobKey(f, MimeDetect);
            var done := PromoteTx(w.db, f, PromoteDone(file.version, stored, false, retention, deleted), w.now);
            && f in done.files
            && done.files[f] == file.(
                 status := PROCESSING, stored := Some(stored), errorCode := None, version := file.version + 1,
                 retentionUntil := if retention.Some? then retention else file.retentionUntil,
                 stagingKey := if deleted then None else file.stagingKey,
                 stagingDeletedAt := if deleted then Some(w.now) else file.stagingDeletedAt)
            && p in done.jobs && m in done.jobs
            && done.jobs[p] == w.db.jobs[p].(
                 status := JOB_SUCCEEDED, attempt := w.db.jobs[p].attempt + 1, errorCode := None)
            && done.jobs[m].status == JOB_SUCCEEDED && done.jobs[m].attempt == 1 && done.jobs[m].token == None
    ensures var file, p := w.db.files[f], JobKey(f, Promote);
            var bad := PromoteFailedTx(w.db, f, file.version, code, w.now);
            && f in bad.files
            && bad.files[f] == file.(status := FAILED, errorCode := Some(code), version := file.version + 1)
            && p in bad.jobs
            && bad.jobs[p] == w.db.jobs[p].(
                 status := JOB_FAILED, attempt := w.db.jobs[p].attempt + 1, errorCode := Some(code))
    ensures var file := w.db.files[f];
            var bad := w.db.(files := w.db.files[f := file.(status := FAILED, errorCode := Some(code),
                                                            version := file.version + 1)]);
            && WriteFile(w.db, f, MarkFailed(file.version, code), w.now) == bad
            && WriteFile(w.db, f, MarkProcessingFailed(file.version, code), w.now) == bad
  {
    hide Reachable;
    SoundFile(w, f);
    UploadedHasNoMime(w, f);
  }

  lemma UploadedHasNoMime(w: World, f: FileId)
    requires Reachable(w) && f in w.db.files && w.db.files[f].status == UPLOADED
    ensures JobKey(f, MimeDetect) !in w.db.jobs
  {
    hide Reachable, EvalSound, ReadySound, JobSound, HasStages;
    ReachableInv(w);
    assert FileSound(w.db.files[f]);
    assert JobKey(f, MimeDetect) in w.db.jobs ==> JobHome(w.db, JobKey(f, MimeDetect));
  }

  /** In every reachable state a processing file can be made ready or failed, keeping its object, by whoever names its
      version, and is no longer failed as if it had none. */
  lemma ProcessingFileMoves(w: World, f: FileId, code: string)
    requires Reachable(w) && f in w.db.files && w.db.files[f].status == PROCESSING
    ensures var file := w.db.files[f];
            var done := WriteFile(w.db, f, MarkReady(file.version), w.now);
            var bad := WriteFile(w.db, f, MarkProcessingFailed(file.version, code), w.now);
            && f in done.files && done.files[f].status == READY && done.files[f].stored == file.stored
            && done.files[f].readyAt == Some(w.now) && done.files[f].errorCode == None
            && f in bad.files && bad.files[f].status == FAILED && bad.files[f].stored == file.stored
            && bad.files[f].errorCode == Some(code)
            && (forall v, c :: WriteFile(w.db, f, MarkFailed(v, c), w.now) == w.db)
  {
    hide Reachable;
    SoundFile(w, f);
  }

  /** A ready file's retention is cleared exactly when it has one, and staging of any file exactly once, without
      touching the status unless a pending upload is to expire. */
  lemma HousekeepingExactly(w: World, f: FileId, expire: bool)
    requires Reachable(w) && f in w.db.files
    ensures var file := w.db.files[f];
            var kept := WriteFile(w.db, f, ClearRetention(file.version), w.now);
            var clear := WriteFile(w.db, f, ClearStaging(file.version, expire), w.now);
            && f in kept.files && f in clear.files
            && kept.files[f] == (if file.status == READY && file.retentionUntil.Some?
                                 then file.(retentionUntil := None, version := file.version + 1) else file)
            && (file.stagingKey.None? ==> clear == w.db)
            && (file.stagingKey.Some? ==>
                  && clear.files[f].stagingKey == None && clear.files[f].stagingDeletedAt == Some(w.now)
                  && clear.files[f].stored == file.stored && clear.files[f].version == file.version + 1
                  && clear.files[f].status == if expire && file.status == PENDING_UPLOAD then EXPIRED else file.status)
  {
    hide Reachable;
    SoundFile(w, f);
  }
}
