/** The pipeline's repository and the service loop over it: every method is one statement or transaction,
    proved equal to the write it stands for. */
module AapRepository {
  import opened Common
  import opened AapFiles

  datatype Answer<T> = Ok(value: T) | NotFound | Conflict | Invalid | Late

  const MIN_LEASE := 100
  const MAX_LEASE := 900_000

  class Repository {
    var files: map<FileId, File>
    var jobs: map<JobKey, Job>

    constructor ()
      ensures files == map[] && jobs == map[]
    {
      files := map[];
      jobs := map[];
    }

    ghost function Tables(): Db
      reads this
    {
      Db(files, jobs)
    }

    // ------------------------------------------------------- one file

    method CompleteUploadCAS(f: FileId, version: int, now: Time) returns (r: Answer<(File, Job)>)
      modifies this
      ensures Tables() == FinishUploadTx(old(Tables()), f, version, now)
      ensures r.Ok? || r.NotFound? || r.Conflict?
      ensures r.Ok? <==> f in old(files) && if JobKey(f, Promote) in old(jobs)
                                            then old(files)[f].status in {UPLOADED, PROCESSING, READY}
                                            else old(CanWrite(Tables(), f, FinishUpload(version)))
      ensures r.NotFound? <==> || f !in old(files)
                               || (&& old(files)[f].status in {UPLOADED, PROCESSING, READY}
                                   && JobKey(f, Promote) !in old(jobs))
      ensures r.Ok? ==> f in files && JobKey(f, Promote) in jobs && r.value == (files[f], jobs[JobKey(f, Promote)])
                        && files[f].status in {UPLOADED, PROCESSING, READY}
    {
      if f !in files { return NotFound; }
      var file, key := files[f], JobKey(f, Promote);
      if file.status != PENDING_UPLOAD {
        if file.status == UPLOADED || file.status == PROCESSING || file.status == READY {
          if key !in jobs { return NotFound; }
          return Ok((file, jobs[key]));
        }
        return Conflict;
      }
      if file.version != version { return Conflict; }
      if key in jobs { return Conflict; }
      files := files[f := file.(status := UPLOADED, version := file.version + 1)];
      jobs := jobs[key := NewJob(JOB_PENDING, 0, false, now)];
      return Ok((files[f], jobs[key]));
    }

    method MarkFileFailed(f: FileId, code: string, version: int, now: Time) returns (r: Answer<File>)
      modifies this`files
      ensures Tables() == WriteFile(old(Tables()), f, MarkFailed(version, code), now)
      ensures r == if old(CanWrite(Tables(), f, MarkFailed(version, code))) then Ok(files[f]) else Conflict
    {
      if f !in files { return Conflict; }
      var file := files[f];
      if !(file.status == PENDING_UPLOAD || file.status == UPLOADED || file.status == PROCESSING) { return Conflict; }
      if !(version == 0 || file.version == version) || file.stored.Some? { return Conflict; }
      files := files[f := file.(status := FAILED, errorCode := Some(code), version := file.version + 1)];
      return Ok(files[f]);
    }

    method MarkStagingCleared(f: FileId, version: int, expirePending: bool, now: Time) returns (r: Answer<File>)
      modifies this`files
      ensures Tables() == WriteFile(old(Tables()), f, ClearStaging(version, expirePending), now)
      ensures r == if f in files then Ok(files[f]) else NotFound
    {
      if f !in files { return NotFound; }
      var file := files[f];
      if file.stagingDeletedAt.Some? && file.stagingKey.None? { return Ok(file); }
      if file.stagingKey.Some? && file.stagingDeletedAt.None? && (version == 0 || file.version == version) {
        var expire := expirePending && file.status == PENDING_UPLOAD;
        files := files[f := file.(
          stagingKey := None, stagingDeletedAt := Some(now),
          status := if expire then EXPIRED else file.status,
          errorCode := if expire && file.errorCode.None? then Some("FILE_UPLOAD_EXPIRED") else file.errorCode,
          version := file.version + 1)];
      }
      return Ok(files[f]);
    }

    method MarkFileReadyCAS(f: FileId, version: int, now: Time) returns (r: Answer<File>)
      modifies this`files
      ensures Tables() == WriteFile(old(Tables()), f, MarkReady(version), now)
      ensures r == if old(CanWrite(Tables(), f, MarkReady(version))) then Ok(files[f]) else Conflict
    {
      if f !in files { return Conflict; }
      var file := files[f];
      if file.status != PROCESSING || file.stored.None? || file.version != version { return Conflict; }
      files := files[f := file.(status := READY, readyAt := Some(now), errorCode := None, version := file.version + 1)];
      return Ok(files[f]);
    }

    method ClearRetentionUntilCAS(f: FileId, version: int, now: Time) returns (r: Answer<File>)
      modifies this`files
      ensures Tables() == WriteFile(old(Tables()), f, ClearRetention(version), now)
      ensures r == if old(CanWrite(Tables(), f, ClearRetention(version))) then Ok(files[f]) else Conflict
    {
      if f !in files { return Conflict; }
      var file := files[f];
      if file.status != READY || file.version != version || file.retentionUntil.None? { return Conflict; }
      files := files[f := file.(retentionUntil := None, version := file.version + 1)];
      return Ok(files[f]);
    }

    method MarkFileProcessingFailedCAS(f: FileId, code: string, version: int, now: Time) returns (r: Answer<File>)
      modifies this`files
      ensures Tables() == WriteFile(old(Tables()), f, MarkProcessingFailed(version, code), now)
      ensures r == if old(CanWrite(Tables(), f, MarkProcessingFailed(version, code))) then Ok(files[f]) else Conflict
    {
      if f !in files { return Conflict; }
      var file := files[f];
      if !(file.status == UPLOADED || file.status == PROCESSING) || file.version != version { return Conflict; }
      files := files[f := file.(status := FAILED, errorCode := Some(code), version := file.version + 1)];
      return Ok(files[f]);
    }

    // ------------------------------------------------------ promotion

    method ApplyPromoteSuccess(f: FileId, stored: string, version: int, ready: bool, retention: Option<Time>,
                               stagingDeleted: bool, now: Time)
      returns (r: Answer<File>)
      modifies this
      ensures var op := PromoteDone(version, stored, ready, retention, stagingDeleted);
              Tables() == PromoteTx(old(Tables()), f, op, now)
      ensures r == if old(CanWrite(Tables(), f, PromoteDone(version, stored, ready, retention, stagingDeleted)))
                   then Ok(files[f]) else Conflict
    {
      if f !in files { return Conflict; }
      var file := files[f];
      if !(file.status == UPLOADED || file.status == PROCESSING) || file.stored.Some? || file.version != version {
        return Conflict;
      }
      var status, readyAt := PROCESSING, file.readyAt;
      if ready {
        status, readyAt := READY, Some(now);
      }
      if stagingDeleted {
        file := file.(stagingKey := None, stagingDeletedAt := Some(now));
      }
      files := files[f := file.(
        stored := Some(stored), status := status, readyAt := readyAt,
        retentionUntil := if retention.Some? then retention else file.retentionUntil,
        errorCode := None, version := file.version + 1)];
      var p, m := JobKey(f, Promote), JobKey(f, MimeDetect);
      if p in jobs {
        jobs := jobs[p := jobs[p].(status := JOB_SUCCEEDED, attempt := jobs[p].attempt + 1, errorCode := None)];
      }
      if m in jobs {
        jobs := jobs[m := jobs[m].(status := JOB_SUCCEEDED, attempt := jobs[m].attempt + 1, required := false,
                                   errorCode := None)];
      } else {
        jobs := jobs[m := NewJob(JOB_SUCCEEDED, 1, false, now)];
      }
      return Ok(files[f]);
    }

    method MarkPromoteFailed(f: FileId, code: string, version: int, now: Time) returns (r: Answer<File>)
      modifies this
      ensures Tables() == PromoteFailedTx(old(Tables()), f, version, code, now)
      ensures r == if old(CanWrite(Tables(), f, PromoteFailed(version, code))) then Ok(files[f]) else Conflict
    {
      if f !in files { return Conflict; }
      var file := files[f];
      if !(file.status == UPLOADED || file.status == PROCESSING) || file.stored.Some? || file.version != version {
        return Conflict;
      }
      files := files[f := file.(status := FAILED, errorCode := Some(code), version := file.version + 1)];
      var p := JobKey(f, Promote);
      if p in jobs {
        jobs := jobs[p := jobs[p].(status := JOB_FAILED, attempt := jobs[p].attempt + 1, errorCode := Some(code))];
      }
      return Ok(files[f]);
    }

    // -------------------------------------------------------- one job

    method InsertPipelineJob(k: JobKey, required: bool, now: Time) returns (r: Answer<Job>)
      modifies this`jobs
      ensures Tables() == InsertJob(old(Tables()), k, required, now)
      ensures r.Ok? <==> k.file in files
      ensures r.Ok? ==> k in jobs && r.value == jobs[k]
    {
      if k.file !in files { return Invalid; }
      if k !in jobs {
        jobs := jobs[k := NewJob(JOB_PENDING, 0, required, now)];
      }
      return Ok(jobs[k]);
    }

    /** Claims some claimable job, and none only when there is none. */
    method ClaimNextJob(token: Token, lease: int, now: Time) returns (r: Answer<Option<JobKey>>)
      modifies this`jobs
      ensures r == Invalid <==> !(MIN_LEASE <= lease <= MAX_LEASE)
      ensures r.Ok? && r.value.Some? ==>
                && old(CanUpdate(Tables(), r.value.value, Claim(token, lease), now))
                && Tables() == UpdateJob(old(Tables()), r.value.value, Claim(token, lease), now)
      ensures r.Ok? && r.value.None? ==> Tables() == old(Tables()) && forall k :: k in jobs ==> !Claimable(jobs[k], now)
      ensures r.Ok? || (r.Invalid? && Tables() == old(Tables()))
    {
      if lease < MIN_LEASE || lease > MAX_LEASE { return Invalid; }
      var candidates := set k | k in jobs && Claimable(jobs[k], now);
      if candidates == {} {
        assert forall k :: k in jobs && Claimable(jobs[k], now) ==> k in candidates;
        return Ok(None);
      }
      var k :| k in candidates;
      var job := jobs[k];
      if job.status == JOB_PENDING {
        job := job.(status := JOB_RUNNING, attempt := job.attempt + 1);
      }
      jobs := jobs[k := job.(token := Some(token), claimExpires := Some(now + lease))];
      return Ok(Some(k));
    }

    method ReleaseJobClaim(
        k: JobKey, token: Token, next: Option<Time>, code: Option<string>, status: JobStatus, now: Time)
      modifies this`jobs
      ensures Tables() == UpdateJob(old(Tables()), k, Release(token, status, next, code), now)
    {
      if k in jobs && jobs[k].token == Some(token) {
        var job := jobs[k];
        jobs := jobs[k := job.(
          status := status, token := None, claimExpires := None,
          availableAt := if next.Some? then next.value else job.availableAt,
          errorCode := if code.Some? then code else job.errorCode)];
      }
    }

    method CompleteClaimedJob(k: JobKey, token: Token, status: JobStatus, code: Option<string>, required: Option<bool>,
                              now: Time)
      returns (r: Answer<Job>)
      modifies this`jobs
      ensures Tables() == UpdateJob(old(Tables()), k, Complete(token, status, code, required), now)
      ensures r.Ok? <==> old(CanUpdate(Tables(), k, Complete(token, status, code, required), now))
      ensures r.Ok? ==> k in jobs && r.value == jobs[k]
    {
      if !Terminal(status) && status != JOB_DELIVERED { return Invalid; }
      if k !in jobs || jobs[k].token != Some(token) { return Conflict; }
      jobs := jobs[k := jobs[k].(
        status := status, token := None, claimExpires := None, errorCode := code,
        required := if required.Some? then required.value else jobs[k].required)];
      return Ok(jobs[k]);
    }

    method MarkJobDelivered(k: JobKey, token: Token, delivery: DeliveryId, deadline: Time, required: bool, now: Time)
      returns (r: Answer<Job>)
      modifies this`jobs
      ensures Tables() == UpdateJob(old(Tables()), k, Deliver(token, delivery, deadline, required), now)
      ensures r.Ok? <==> old(CanUpdate(Tables(), k, Deliver(token, delivery, deadline, required), now))
      ensures r.Ok? ==> k in jobs && r.value == jobs[k]
    {
      if k !in jobs || jobs[k].token != Some(token) || jobs[k].status != JOB_RUNNING { return Conflict; }
      jobs := jobs[k := jobs[k].(
        status := JOB_DELIVERED, delivery := Some(delivery), deadline := Some(deadline),
        token := None, claimExpires := None, errorCode := None, required := required)];
      return Ok(jobs[k]);
    }

    /** A callback is applied to a job of that delivery: settled ones answer as they stand, late ones are refused. */
    method ApplyCallbackCAS(delivery: DeliveryId, status: JobStatus, now: Time)
      returns (r: Answer<(Job, File)>, ghost key: JobKey)
      modifies this
      ensures Tables() == CallbackTx(old(Tables()), key, Callback(delivery, status), now)
      ensures r.Invalid? <==> status != JOB_SUCCEEDED && status != JOB_FAILED
      ensures r.NotFound? ==> forall k :: k in jobs && k.file in files ==> jobs[k].delivery != Some(delivery)
      ensures !r.Invalid? && !r.NotFound? ==>
                && key in old(jobs) && key.file in old(files) && old(jobs)[key].delivery == Some(delivery)
                && (r.Ok? <==> || old(jobs)[key].status in {JOB_SUCCEEDED, JOB_FAILED}
                               || Accepts(old(jobs)[key], Callback(delivery, status), now))
                && (r.Late? <==> || old(jobs)[key].status == JOB_TIMED_OUT
                                 || (&& old(jobs)[key].status == JOB_DELIVERED
                                     && !Accepts(old(jobs)[key], Callback(delivery, status), now)))
      ensures r.Ok? ==> key in jobs && key.file in files && r.value == (jobs[key], files[key.file])
                        && r.value.0.delivery == Some(delivery)
                        && r.value.0.status == if old(jobs)[key].status == JOB_DELIVERED then status
                                               else old(jobs)[key].status
      ensures !r.Ok? ==> Tables() == old(Tables())
    {
      key := JobKey("", Promote);
      if status != JOB_SUCCEEDED && status != JOB_FAILED { return Invalid, key; }
      var found := set k | k in jobs && k.file in files && jobs[k].delivery == Some(delivery);
      if found == {} {
        assert forall k :: k in jobs && k.file in files && jobs[k].delivery == Some(delivery) ==> k in found;
        return NotFound, key;
      }
      var k :| k in found;
      key := k;
      var job := jobs[k];
      if job.status == JOB_SUCCEEDED || job.status == JOB_FAILED { return Ok((job, files[k.file])), key; }
      if job.status == JOB_TIMED_OUT { return Late, key; }
      if job.status != JOB_DELIVERED { return Conflict, key; }
      if job.deadline.Some? && now >= job.deadline.value { return Late, key; }
      jobs := jobs[k := job.(status := status, errorCode := if status == JOB_FAILED then job.errorCode else None)];
      files := files[k.file := files[k.file].(version := files[k.file].version + 1)];
      return Ok((jobs[k], files[k.file])), key;
    }

    // -------------------------------------------------------- service

    /** The service's loop over the listed jobs. */
    method JudgeStages(stages: map<Stage, Job>) returns (v: Verdict)
      ensures v == Judge(stages)
    {
      var pending := stages.Keys;
      var requiredFailed, requiredOpen := false, false;
      while pending != {}
        invariant pending <= stages.Keys
        invariant requiredFailed <==> exists s :: s in stages && s !in pending && Broken(s, stages[s])
        invariant requiredOpen ==> exists s :: s in stages && !Fine(s, stages[s])
        invariant !requiredOpen ==>
                    forall s :: s in stages && s !in pending ==> Fine(s, stages[s]) || Broken(s, stages[s])
        decreases pending
      {
        var s :| s in pending;
        var job := stages[s];
        if Required(s, job) {
          match job.status
          case JOB_SUCCEEDED | JOB_SKIPPED =>
          case JOB_FAILED | JOB_TIMED_OUT => requiredFailed := true; assert Broken(s, stages[s]);
          case _ => requiredOpen := true; assert !Fine(s, stages[s]);
        }
        pending := pending - {s};
      }
      return if requiredFailed then StageFailed else if requiredOpen then StageOpen else AllDone;
    }

    /** The evaluation, undisturbed. */
    method EvaluateReady(f: FileId, now: Time) returns (r: Answer<File>)
      modifies this`files
      ensures Tables() == EvaluateTx(old(Tables()), f, now)
      ensures r == if f in files then Ok(files[f]) else NotFound
    {
      if f !in files { return NotFound; }
      var file := files[f];
      if Settled(file.status) || file.stored.None? { return Ok(file); }
      var verdict := JudgeStages(JobsOf(jobs, f));
      match verdict {
        case StageFailed =>
          var _ := MarkFileProcessingFailedCAS(f, "FILE_PROCESSING_FAILED", file.version, now);
        case StageOpen =>
        case AllDone =>
          var _ := MarkFileReadyCAS(f, file.version, now);
      }
      return Ok(files[f]);
    }

    /** The sweep's half of a claimed delivered job: its time is up, and its file is evaluated. */
    method TimeoutDelivered(k: JobKey, token: Token, now: Time) returns (r: Answer<Job>)
      modifies this
      ensures r.Ok? <==> k in old(jobs) && old(jobs)[k].token == Some(token)
      ensures var timeout := Complete(token, JOB_TIMED_OUT, Some("FILE_PROCESSING_FAILED"), old(FlagOf(jobs, k)));
              Tables() == if r.Ok? then EvaluateTx(UpdateJob(old(Tables()), k, timeout, now), k.file, now)
                          else old(Tables())
    {
      r := CompleteClaimedJob(k, token, JOB_TIMED_OUT, Some("FILE_PROCESSING_FAILED"), FlagOf(jobs, k), now);
      if !r.Ok? { return; }
      var _ := EvaluateReady(k.file, now);
    }
  }

  /** The sweep writes back whether the stage was required. */
  function FlagOf(jobs: map<JobKey, Job>, k: JobKey): Option<bool>
  {
    if k in jobs then Some(Required(k.stage, jobs[k])) else None
  }
}
