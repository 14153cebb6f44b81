/** What holds over every run of the file pipeline. */
module AapTheorems {
  import opened Common
  import opened AapFiles
  import opened AapPipeline

  ghost predicate Reachable(w: World)
  {
    exists es :: LegalRun(START, es) && Exec(START, es) == w
  }

  /** What a whole run may do to a file: an unchanged version means an unchanged row. */
  ghost predicate FileAdvances(a: File, b: File)
  {
    && a.version <= b.version && (a.version == b.version ==> a == b)
    && Rank(a.status) <= Rank(b.status) && (Settled(a.status) ==> b.status == a.status)
    && (a.stored.Some? ==> b.stored == a.stored)
    && (a.stagingKey == None ==> b.stagingKey == None)
    && a.generated == b.generated
  }

  ghost predicate JobAdvances(stage: Stage, a: Job, b: Job)
  {
    stage != Promote && Terminal(a.status) ==> a == b
  }

  ghost predicate Advances(a: Db, b: Db)
  {
    && (forall f :: f in a.files ==> f in b.files && FileAdvances(a.files[f], b.files[f]))
    && (forall k :: k in a.jobs ==> k in b.jobs && JobAdvances(k.stage, a.jobs[k], b.jobs[k]))
  }

  lemma StepAdvances(w: World, e: Event)
    requires Inv(w) && Legal(w, e)
    ensures Inv(Apply(w, e)) && Advances(w.db, Apply(w, e).db) && w.now <= Apply(w, e).now
  {
    StepKeepsInv(w, e);
    ClockGrows(w, e);
    var v := Apply(w, e);
    hide Apply, Legal, DbMoves, DbSound, EvalSound, ReadySound, Advances;
    MovesAdvance(w.db, w.now, v.db, v.now);
  }

  lemma ClockGrows(w: World, e: Event)
    requires Legal(w, e)
    ensures w.now <= Apply(w, e).now
  {
  }

  lemma MovesAdvance(a: Db, now: Time, b: Db, later: Time)
    requires DbSound(a, now) && DbSound(b, later) && DbMoves(a, b)
    ensures Advances(a, b)
  {
    forall f | f in a.files
      ensures f in b.files && FileAdvances(a.files[f], b.files[f])
    {
      assert FileMoves(a.files[f], b.files[f]) && FileSound(a.files[f]) && FileSound(b.files[f]);
    }
  }

  lemma {:induction false} RunAdvances(w: World, es: seq<Event>)
    requires Inv(w) && LegalRun(w, es)
    ensures Inv(Exec(w, es)) && Advances(w.db, Exec(w, es).db) && w.now <= Exec(w, es).now
    decreases |es|
  {
    if es != [] {
      StepAdvances(w, es[0]);
      RunAdvances(Apply(w, es[0]), es[1..]);
      hide Apply, Inv;
      AdvancesCompose(w.db, Apply(w, es[0]).db, Exec(w, es).db);
    }
  }

  lemma AdvancesCompose(a: Db, b: Db, c: Db)
    requires Advances(a, b) && Advances(b, c)
    ensures Advances(a, c)
  {
    forall f | f in a.files
      ensures f in c.files && FileAdvances(a.files[f], c.files[f])
    {
      assert FileAdvances(a.files[f], b.files[f]) && FileAdvances(b.files[f], c.files[f]);
    }
    forall k | k in a.jobs
      ensures k in c.jobs && JobAdvances(k.stage, a.jobs[k], c.jobs[k])
    {
      assert JobAdvances(k.stage, a.jobs[k], b.jobs[k]) && JobAdvances(k.stage, b.jobs[k], c.jobs[k]);
    }
  }

  lemma ReachableInv(w: World)
    requires Reachable(w)
    ensures Inv(w)
  {
    var es :| LegalRun(START, es) && Exec(START, es) == w;
    RunAdvances(START, es);
  }

  // ------------------------------------------------------------- jobs

  /** The terminal status of a webhook, virus_scan or mime_detect job is written once: no later delivery,
      callback, timeout sweep, expired claim, release or re-insert changes anything in its row. */
  lemma SettledJobIsFrozen(w: World, es: seq<Event>, k: JobKey)
    requires Reachable(w) && LegalRun(w, es)
    requires k in w.db.jobs && k.stage != Promote && Terminal(w.db.jobs[k].status)
    ensures k in Exec(w, es).db.jobs && Exec(w, es).db.jobs[k] == w.db.jobs[k]
  {
    ReachableInv(w);
    RunAdvances(w, es);
    assert JobAdvances(k.stage, w.db.jobs[k], Exec(w, es).db.jobs[k]);
  }

  /** Timeout and callback have one winner: once the sweep has claimed a delivered job no callback is taken. */
  lemma TimeoutShutsOutCallbacks(w: World, k: JobKey, d: DeliveryId, s: JobStatus)
    requires Reachable(w) && k in w.db.jobs && k.stage != Promote && w.db.jobs[k].token.Some?
    ensures Apply(w, CallbackArrives(k, d, s)) == w
  {
    ReachableInv(w);
    assert JobSound(k.stage, w.db.jobs[k], w.now);
  }

  /** How a promote job that had settled comes to be written again. */
  ghost predicate Rewrites(w: World, e: Event, k: JobKey)
    requires k in w.db.jobs
  {
    var j := w.db.jobs[k];
    k.stage == Promote &&
    match e
    case JobWrite(key, Release(t, s, _, _)) => key == k && j.token == Some(t) && s != j.status
    case JobWrite(key, Complete(t, s, _, _)) =>
      key == k && j.token == Some(t) && (Terminal(s) || s == JOB_DELIVERED) && s != j.status
    case PromotionDone(f, v, stored, retention, deleted) =>
      f == k.file && CanWrite(w.db, f, PromoteDone(v, stored, false, retention, deleted)) && j.status != JOB_SUCCEEDED
    case PromotionFailed(f, v, code) =>
      f == k.file && CanWrite(w.db, f, PromoteFailed(v, code)) && j.status != JOB_FAILED
    case _ => false
  }

  /** A settled status changes in exactly these cases, all on the promote stage. */
  lemma OnlyPromoteIsRewritten(w: World, e: Event, k: JobKey)
    requires Reachable(w) && Legal(w, e) && k in w.db.jobs && Terminal(w.db.jobs[k].status)
    ensures k in Apply(w, e).db.jobs
    ensures Apply(w, e).db.jobs[k].status != w.db.jobs[k].status <==> Rewrites(w, e, k)
  {
    ReachableInv(w);
    StepAdvances(w, e);
    assert JobAdvances(k.stage, w.db.jobs[k], Apply(w, e).db.jobs[k]);
    hide Inv, Advances, Reachable;
    if k.stage == Promote { PromoteRewrites(w, e, k); }
  }

  lemma PromoteRewrites(w: World, e: Event, k: JobKey)
    requires Legal(w, e) && k in w.db.jobs && Terminal(w.db.jobs[k].status) && k.stage == Promote
    ensures k in Apply(w, e).db.jobs
    ensures Apply(w, e).db.jobs[k].status != w.db.jobs[k].status <==> Rewrites(w, e, k)
  {
  }

  const PROMOTE := JobKey("f", Promote)

  ghost predicate AtPromoted(w: World, status: FileStatus, version: int)
  {
    && w.db.jobs.Keys == {PROMOTE, JobKey("f", MimeDetect)}
    && w.db.jobs[PROMOTE].status == JOB_SUCCEEDED && w.db.jobs[PROMOTE].token == Some("t")
    && w.db.jobs[JobKey("f", MimeDetect)].status == JOB_SUCCEEDED
    && "f" in w.db.files && w.db.files["f"].stored == Some("object")
    && w.db.files["f"].status == status && w.db.files["f"].version == version
  }

  lemma ClaimedPromote() returns (w: World)
    ensures Reachable(w) && w.evals == map[] && w.now == 0
    ensures w.db.jobs.Keys == {PROMOTE} && w.db.jobs[PROMOTE].token == Some("t")
    ensures "f" in w.db.files
    ensures w.db.files["f"] == File(UPLOADED, 2, false, Some("key"), None, None, None, Some(0), None)
  {
    var e1, e2, e3 := Upload("f", "key", 0), UploadFinished("f", 1), JobWrite(PROMOTE, Claim("t", 60000));
    StartReachable();
    hide Reachable;
    var w1 := Apply(START, e1);
    ReachableNext(START, e1);
    var w2 := Apply(w1, e2);
    ReachableNext(w1, e2);
    assert w2.db.jobs[PROMOTE] == NewJob(JOB_PENDING, 0, false, 0);
    w := Apply(w2, e3);
    ReachableNext(w2, e3);
  }

  lemma PromotedUnderClaim() returns (w: World)
    ensures Reachable(w) && w.evals == map[] && AtPromoted(w, PROCESSING, 3)
  {
    hide Reachable;
    var v := ClaimedPromote();
    var e := PromotionDone("f", 2, "object", None, true);
    w := Apply(v, e);
    ReachableNext(v, e);
  }

  lemma ReadyUnderClaim() returns (w: World)
    ensures Reachable(w) && AtPromoted(w, READY, 4)
  {
    hide Reachable;
    var w4 := PromotedUnderClaim();
    AllDoneAfterPromotion(w4.db.jobs);
    hide Judge, JobsOf;
    var w5 := Apply(w4, EvalReads(0, "f"));
    ReachableNext(w4, EvalReads(0, "f"));
    var w6 := Apply(w5, EvalLists(0));
    ReachableNext(w5, EvalLists(0));
    w := Apply(w6, EvalMarks(0));
    ReachableNext(w6, EvalMarks(0));
  }

  /** Promote is indeed different: the promotion leaves the worker's claim in place, so a release after a
      later error reopens the job, even of a file that is ready by then. */
  lemma PromoteCanReopen()
    ensures exists w :: Reachable(w) && Reopened(w)
  {
    hide Reachable;
    var w := ReadyUnderClaim();
    var release := JobWrite(PROMOTE, Release("t", JOB_PENDING, Some(5), None));
    ReachableNext(w, release);
    assert Reopened(Apply(w, release));
  }

  lemma StartReachable()
    ensures Reachable(START)
  {
    assert LegalRun(START, []) && Exec(START, []) == START;
  }

  lemma ReachableNext(w: World, e: Event)
    requires Reachable(w) && Legal(w, e)
    ensures Reachable(Apply(w, e))
  {
    hide Apply, Legal;
    var es :| LegalRun(START, es) && Exec(START, es) == w;
    RunSnoc(START, es, e, w);
  }

  ghost predicate Reopened(w: World)
  {
    && "f" in w.db.files && w.db.files["f"].status == READY
    && PROMOTE in w.db.jobs && w.db.jobs[PROMOTE].status == JOB_PENDING
  }

  lemma AllDoneAfterPromotion(jobs: map<JobKey, Job>)
    requires jobs.Keys == {PROMOTE, JobKey("f", MimeDetect)}
    requires jobs[PROMOTE].status == JOB_SUCCEEDED && jobs[JobKey("f", MimeDetect)].status == JOB_SUCCEEDED
    ensures Judge(JobsOf(jobs, "f")) == AllDone
  {
  }

  lemma {:induction false} RunSnoc(w: World, es: seq<Event>, e: Event, v: World)
    requires LegalRun(w, es) && Exec(w, es) == v && Legal(v, e)
    ensures LegalRun(w, es + [e]) && Exec(w, es + [e]) == Apply(v, e)
    decreases |es|
  {
    if es == [] {
      assert ([e])[1..] == [];
    } else {
      assert (es + [e])[1..] == es[1..] + [e];
      RunSnoc(Apply(w, es[0]), es[1..], e, v);
    }
  }

  /** The event presents this job's claim token. */
  predicate Presents(e: Event, k: JobKey, token: Token)
  {
    e.JobWrite? && e.key == k && !e.jobOp.Callback? && !e.jobOp.Claim? && e.jobOp.token == token
  }

  /** The event reports the result of promoting this job's file. */
  predicate Promotes(e: Event, k: JobKey)
  {
    k.stage == Promote && (e.PromotionDone? || e.PromotionFailed?) && e.file == k.file
  }

  /** What moves a running job: its own token with a status the write accepts or, for promote, a promotion result
      that passes its file guard. Nothing looks at the expiry of its claim. */
  ghost predicate MovesRunning(w: World, e: Event, k: JobKey, token: Token)
  {
    || (Presents(e, k, token) && (e.jobOp.Complete? ==> Terminal(e.jobOp.status) || e.jobOp.status == JOB_DELIVERED))
    || (Promotes(e, k)
        && if e.PromotionDone?
           then CanWrite(w.db, e.file, PromoteDone(e.version, e.stored, false, e.newRetention, e.stagingDeleted))
           else CanWrite(w.db, e.file, PromoteFailed(e.version, e.code)))
  }

  ghost predicate RunningUnder(w: World, k: JobKey, token: Token)
  {
    k in w.db.jobs && w.db.jobs[k].status == JOB_RUNNING && w.db.jobs[k].token == Some(token)
  }

  lemma RunningStep(w: World, e: Event, k: JobKey, token: Token)
    requires Legal(w, e) && RunningUnder(w, k, token) && k.stage != MimeDetect
    ensures k in Apply(w, e).db.jobs
    ensures Apply(w, e).db.jobs[k] != w.db.jobs[k] <==> MovesRunning(w, e, k, token)
  {
    hide Judge, JobsOf, Admits, Written;
  }

  lemma RunningIsNotMime(w: World, k: JobKey, token: Token)
    requires Inv(w) && RunningUnder(w, k, token)
    ensures k.stage != MimeDetect
  {
    assert JobHome(w.db, k);
  }

  /** No event along the run moves the job. */
  ghost predicate NobodyMoves(w: World, es: seq<Event>, k: JobKey, token: Token)
    requires LegalRun(w, es)
    decreases |es|
  {
    es == [] || (!MovesRunning(w, es[0], k, token) && NobodyMoves(Apply(w, es[0]), es[1..], k, token))
  }

  /** The row is the same all along the run. */
  ghost predicate KeptAlong(w: World, es: seq<Event>, k: JobKey, job: Job)
    requires LegalRun(w, es)
    decreases |es|
  {
    && k in w.db.jobs && w.db.jobs[k] == job
    && (es != [] ==> KeptAlong(Apply(w, es[0]), es[1..], k, job))
  }

  /** A running job, of any stage, keeps its row along a run exactly as long as no event presents its token or, for
      promote, reports a promotion: an expired claim on a running job is not taken over. */
  lemma {:induction false} RunningJobKeptExactly(w: World, es: seq<Event>, k: JobKey, token: Token)
    requires Reachable(w) && LegalRun(w, es) && RunningUnder(w, k, token)
    ensures KeptAlong(w, es, k, w.db.jobs[k]) <==> NobodyMoves(w, es, k, token)
    decreases |es|
  {
    hide Apply, Legal, Reachable, Inv, MovesRunning;
    if es != [] {
      ReachableInv(w);
      RunningIsNotMime(w, k, token);
      RunningStep(w, es[0], k, token);
      if !MovesRunning(w, es[0], k, token) {
        ReachableNext(w, es[0]);
        RunningJobKeptExactly(Apply(w, es[0]), es[1..], k, token);
      } else {
        MovedIsNotKept(w, es, k);
      }
    }
  }

  lemma MovedIsNotKept(w: World, es: seq<Event>, k: JobKey)
    requires LegalRun(w, es) && es != [] && k in w.db.jobs
    requires k in Apply(w, es[0]).db.jobs && Apply(w, es[0]).db.jobs[k] != w.db.jobs[k]
    ensures !KeptAlong(w, es, k, w.db.jobs[k])
  {
    hide Apply, Legal;
  }

  /** So a job whose worker never comes back stays running for ever, whatever the others do. */
  lemma {:induction false} AbandonedJobStaysRunning(w: World, es: seq<Event>, k: JobKey, token: Token)
    requires Reachable(w) && LegalRun(w, es) && RunningUnder(w, k, token)
    requires forall i :: 0 <= i < |es| ==> !Presents(es[i], k, token) && !Promotes(es[i], k)
    ensures k in Exec(w, es).db.jobs && Exec(w, es).db.jobs[k] == w.db.jobs[k]
    ensures !Claimable(Exec(w, es).db.jobs[k], Exec(w, es).now)
    decreases |es|
  {
    hide Apply, Legal, Reachable, Inv;
    if es != [] {
      ReachableInv(w);
      RunningIsNotMime(w, k, token);
      RunningStep(w, es[0], k, token);
      ReachableNext(w, es[0]);
      AbandonedJobStaysRunning(Apply(w, es[0]), es[1..], k, token);
    }
  }

  const WEBHOOK := JobKey("f", Webhook("scanner"))

  /** A required webhook job is running, its claim long expired. */
  ghost predicate Overdue(w: World)
  {
    && RunningUnder(w, WEBHOOK, "t") && w.db.jobs[WEBHOOK].required
    && w.db.jobs[WEBHOOK].claimExpires.Some? && w.db.jobs[WEBHOOK].claimExpires.value < w.now
  }

  lemma OverdueJobIsReachable()
    ensures exists w :: Reachable(w) && Overdue(w)
  {
    hide Reachable;
    StartReachable();
    var upload, enqueue := Upload("f", "key", 0), EnqueueStage(WEBHOOK, true);
    var claim := JobWrite(WEBHOOK, Claim("t", 60000));
    var w1 := Apply(START, upload);
    ReachableNext(START, upload);
    var w2 := Apply(w1, enqueue);
    ReachableNext(w1, enqueue);
    assert w2.db.jobs[WEBHOOK] == NewJob(JOB_PENDING, 0, true, 0);
    var w3 := Apply(w2, claim);
    ReachableNext(w2, claim);
    assert RunningUnder(w3, WEBHOOK, "t");
    var w4 := Apply(w3, Tick(60001));
    ReachableNext(w3, Tick(60001));
    assert Overdue(w4);
  }

  // ------------------------------------------------------------ files

  /** Over any continuation: the version grows with every write, the status only moves forward and never
      leaves READY, FAILED or EXPIRED, the permanent object is set at most once and never cleared. */
  lemma FileLifecycle(w: World, es: seq<Event>, f: FileId)
    requires Reachable(w) && LegalRun(w, es) && f in w.db.files
    ensures f in Exec(w, es).db.files && FileAdvances(w.db.files[f], Exec(w, es).db.files[f])
  {
    ReachableInv(w);
    RunAdvances(w, es);
  }

  /** In every reachable state a ready file has its permanent object, and the staging key is absent exactly
      when the deletion mark is present. */
  lemma FileFacts(w: World, f: FileId)
    requires Reachable(w) && f in w.db.files
    ensures w.db.files[f].status == READY ==> w.db.files[f].stored.Some?
    ensures w.db.files[f].stagingKey == None <==> w.db.files[f].stagingDeletedAt.Some?
    ensures w.db.files[f].status in {UPLOADED, PROCESSING} ==> JobKey(f, Promote) in w.db.jobs
  {
    ReachableInv(w);
    assert FileSound(w.db.files[f]) && HasStages(w.db, f);
  }

  /** Compare-and-set: a write that names a version which has been overtaken is refused for ever. */
  lemma OvertakenVersionIsRefused(w: World, e: Event, es: seq<Event>, f: FileId, op: FileOp)
    requires Reachable(w) && Legal(w, e) && f in w.db.files && LegalRun(Apply(w, e), es)
    requires Apply(w, e).db.files[f] != w.db.files[f]
    requires !op.Bump? && op.version == w.db.files[f].version
    ensures WriteFile(Exec(Apply(w, e), es).db, f, op, Exec(Apply(w, e), es).now) == Exec(Apply(w, e), es).db
  {
    hide Apply, Legal, Exec, LegalRun, Reachable, Admits, Written;
    ReachableInv(w);
    assert FileSound(w.db.files[f]) by { hide EvalSound, ReadySound, JobSound, JobHome; }
    StepAdvances(w, e);
    RunAdvances(Apply(w, e), es);
    hide Inv;
    var a, b, c := w.db.files[f], Apply(w, e).db.files[f], Exec(Apply(w, e), es).db.files[f];
    assert FileAdvances(a, b) && FileAdvances(b, c);
    OtherVersionIsRefused(c, op);
  }

  lemma OtherVersionIsRefused(f: File, op: FileOp)
    requires !op.Bump? && op.version >= 1 && op.version != f.version
    ensures !Admits(f, op)
  {
  }

  // ------------------------------------------------------------ ready

  /** The three events of an evaluation, with nothing in between, do what the undisturbed evaluation does. */
  lemma EvaluationIsItsEvents(w: World, i: nat, f: FileId)
    requires i !in w.evals
    ensures var w1 := Apply(w, EvalReads(i, f));
            if WorthEvaluating(w.db, f) then
              && Legal(w1, EvalLists(i)) && var w2 := Apply(w1, EvalLists(i));
              && Legal(w2, EvalMarks(i)) && Apply(w2, EvalMarks(i)).db == EvaluateTx(w.db, f, w.now)
            else w1 == w && EvaluateTx(w.db, f, w.now) == w.db
  {
    hide Judge, JobsOf, Admits, Written;
  }

  /** Whatever happens after an upload became ready, every required stage the evaluation saw, promote aside,
      still stands as succeeded or skipped, and mime_detect is among them. */
  lemma ReadyIsJustified(w: World, f: FileId, s: Stage)
    requires Reachable(w) && f in w.db.files && w.db.files[f].status == READY && !w.db.files[f].generated
    ensures f in w.ready && MimeDetect in w.ready[f]
    ensures s in w.ready[f] && s != Promote && Required(s, w.ready[f][s]) ==>
              && JobKey(f, s) in w.db.jobs && w.db.jobs[JobKey(f, s)] == w.ready[f][s]
              && w.db.jobs[JobKey(f, s)].status in {JOB_SUCCEEDED, JOB_SKIPPED}
  {
    ReachableInv(w);
    assert ReadySound(w.db, f, w.ready[f]);
    if s in w.ready[f] {
      assert Fine(s, w.ready[f][s]);
    }
  }

  /** The same at any later time, against the list the evaluation saw. */
  lemma ReadyStaysJustified(w: World, es: seq<Event>, f: FileId, s: Stage)
    requires Reachable(w) && f in w.ready && s in w.ready[f] && s != Promote && Required(s, w.ready[f][s])
    requires LegalRun(w, es)
    ensures var v := Exec(w, es).db;
            && f in v.files && v.files[f].status == READY && v.files[f].stored.Some?
            && JobKey(f, s) in v.jobs && v.jobs[JobKey(f, s)] == w.ready[f][s]
            && v.jobs[JobKey(f, s)].status in {JOB_SUCCEEDED, JOB_SKIPPED}
  {
    ReachableInv(w);
    assert ReadySound(w.db, f, w.ready[f]) && FileSound(w.db.files[f]);
    ReadyIsJustified(w, f, s);
    RunAdvances(w, es);
    var v := Exec(w, es).db;
    assert FileAdvances(w.db.files[f], v.files[f]);
    assert JobAdvances(s, w.db.jobs[JobKey(f, s)], v.jobs[JobKey(f, s)]);
  }
}
