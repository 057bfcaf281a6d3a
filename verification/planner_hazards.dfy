/** Where interleaving hurts: failures that stale writes make permanent, and the retry dead end. */
module PlannerHazards {
  import opened Common
  import opened Planner
  import opened PlannerSafety
  import opened PlannerSequential

  lemma RunSnoc(s: Sys, actions: seq<Action>, a: Action)
    ensures Run(s, actions + [a]) == Next(Run(s, actions), a)
  {
    RunSplits(s, actions, [a]);
    assert Run(Run(s, actions), [a]) == Run(Next(Run(s, actions), a), [a][1..]);
  }

  /** An edit or a rollback gets its version stored exactly when its snapshot is at the head of the
      history; behind the head it fails on the unique index and changes nothing. */
  lemma AppendsIffAtHead(db: Db, op: Op, ext: Outcome)
    requires Contiguous(db.versions) && OpOk(op, db.versions)
    requires op.EditLoaded? || op.RollbackFound?
    ensures var Pair(db', op') := Advance(db, op, ext);
            && (op'.Saving? <==> op.doc.currentVersion == |db.versions|)
            && (op'.Saving? ==> op'.doc.currentVersion == |db.versions| + 1 &&
                                op'.doc.currentVersion in db'.versions &&
                                db'.versions[op'.doc.currentVersion].content == op.content)
            && (!op'.Saving? ==> db' == db && op' == Finished(DuplicateError))
  {
    assert op.doc.currentVersion + 1 in db.versions <==> op.doc.currentVersion < |db.versions|;
  }

  /** A rollback in flight stores an exact copy of its target, however stale its snapshot. */
  lemma RollbackCopies(s: Sys, i: nat, ext: Outcome)
    requires Inv(s) && i < |s.ops| && s.ops[i].RollbackFound?
    ensures var s' := Next(s, Step(i, ext));
            var n, target := |s.db.versions| + 1, s.ops[i].target;
            && 1 <= target < n && target as nat in s.db.versions
            && if s'.ops[i].Saving? then
                 s'.db.versions == s.db.versions[n := Version(s.db.versions[target as nat].content, RolledBack)]
               else s'.db == s.db
  {
    assert OpOk(s.ops[i], s.db.versions);
    AppendsIffAtHead(s.db, s.ops[i], ext);
  }

  /** A lecture whose stored row says "no version yet" while its history is not empty, with nothing
      left in flight that knows better. */
  ghost predicate Wedged(s: Sys) {
    && Contiguous(s.db.versions) && s.db.versions != map[]
    && s.db.lecture.currentVersion == 0
    && (forall k :: 0 <= k < |s.queue| ==> s.queue[k].GenerateJob?)
    && (forall i :: 0 <= i < |s.ops| ==> HarmlessOp(s.ops[i]))
  }

  ghost predicate HarmlessOp(op: Op) {
    match op
    case Finished(_) => true
    case Saving(doc, result) => doc.currentVersion == 0 && !result.WillRetry?
    case RollbackLoaded(doc, _) => doc.currentVersion == 0
    case RollbackFound(doc, _, _) => doc.currentVersion == 0
    case EditLoaded(doc, _) => doc.currentVersion == 0
    case GenerateLoaded(doc, _) => doc.currentVersion == 0
    case GenerateCalling(doc, _) => doc.currentVersion == 0
    case GenerateInserting(doc, _) => doc.currentVersion == 0
    case _ => false
  }

  lemma WedgedAdvance(db: Db, op: Op, ext: Outcome)
    requires Contiguous(db.versions) && db.versions != map[] && db.lecture.currentVersion == 0 && HarmlessOp(op)
    ensures var Pair(db', op') := Advance(db, op, ext);
            && db'.versions == db.versions && db'.lecture.currentVersion == 0 && HarmlessOp(op')
            && (op'.Finished? && op'.result.WillRetry? && !op.Finished? ==> op'.result.job.GenerateJob?)
  {
    assert |db.versions| != 0;
    assert 1 in db.versions;
  }

  /** A wedged lecture stays wedged: no sequence of edits, rollbacks, refine requests, retries and
      jobs ever makes a version current again or adds one. */
  lemma {:induction false} WedgedForever(s: Sys, actions: seq<Action>)
    requires Wedged(s)
    ensures Wedged(Run(s, actions)) && Run(s, actions).db.versions == s.db.versions
    ensures GetCurrentContent(Run(s, actions).db) == None
    decreases |actions|
  {
    if actions != [] {
      var a := actions[0];
      if a.Step? && a.i < |s.ops| {
        WedgedAdvance(s.db, s.ops[a.i], a.ext);
      }
      assert Wedged(Next(s, a));
      WedgedForever(Next(s, a), actions[1..]);
    }
  }

  /** A manual edit has overtaken the first generate job, which still holds its "no version" snapshot. */
  const OVERTAKEN: Sys :=
    Sys(Db(Lecture(Ready, None, 1, None, None), map[1 := Version("edited", ManualEdit)], []), [],
        [GenerateCalling(Lecture(Generating, None, 0, None, None), 0), Finished(Appended(1))])

  /** The actions that lead to `OVERTAKEN`, and those that let the generate job finish. */
  const OVERTAKING: seq<Action> :=
    [StartJob(0), Step(0, NO_CALL), StartEdit("edited"), Step(1, NO_CALL), Step(1, NO_CALL)]
  const FINISHING: seq<Action> :=
    [Step(0, Produced("ai", 7)), Step(0, NO_CALL), Step(0, NO_CALL)]

  lemma RunThree(s: Sys, a: Action, b: Action, c: Action)
    ensures Run(s, [a, b, c]) == Next(Next(Next(s, a), b), c)
  {
    RunSnoc(s, [], a);
    RunSnoc(s, [a], b);
    RunSnoc(s, [a, b], c);
    assert [] + [a] == [a] && [a] + [b] == [a, b] && [a, b] + [c] == [a, b, c];
  }

  lemma OvertakenIsReachable()
    ensures Run(CREATED, OVERTAKING) == OVERTAKEN
  {
    var loaded := Sys(CREATED.db, [], [GenerateLoaded(CREATED.db.lecture, 0)]);
    assert Next(CREATED, StartJob(0)) == loaded;
    var generating := Lecture(Generating, None, 0, None, None);
    var calling := GenerateCalling(generating, 0);
    var s2 := Sys(CREATED.db.(lecture := generating), [], [calling]);
    assert Next(loaded, Step(0, NO_CALL)) == s2;
    var s3 := s2.(ops := [calling, EditLoaded(generating, "edited")]);
    assert Next(s2, StartEdit("edited")) == s3;
    RunThree(CREATED, StartJob(0), Step(0, NO_CALL), StartEdit("edited"));
    var s4 := Next(s3, Step(1, NO_CALL));
    assert s4.ops == [calling, Saving(Live(generating, 1), Appended(1))];
    assert Next(s4, Step(1, NO_CALL)).ops == OVERTAKEN.ops;
    assert Next(s4, Step(1, NO_CALL)) == OVERTAKEN;
    RunSnoc(CREATED, OVERTAKING[..3], Step(1, NO_CALL));
    RunSnoc(CREATED, OVERTAKING[..4], Step(1, NO_CALL));
    assert OVERTAKING[..3] == [StartJob(0), Step(0, NO_CALL), StartEdit("edited")];
    assert OVERTAKING[..4] == OVERTAKING[..3] + [Step(1, NO_CALL)];
    assert OVERTAKING == OVERTAKING[..4] + [Step(1, NO_CALL)];
  }

  lemma OvertakenWedges()
    ensures Wedged(Run(OVERTAKEN, FINISHING))
  {
    var s := OVERTAKEN;
    var stale := Lecture(Generating, None, 0, None, None);
    var s1 := Next(s, FINISHING[0]);
    assert s1.ops == [GenerateInserting(stale, "ai"), Finished(Appended(1))];
    var s2 := Next(s1, FINISHING[1]);
    assert s2.ops == [Saving(Marked(stale, DuplicateKey), MarkedFailed(DuplicateKey)), Finished(Appended(1))];
    var s3 := Next(s2, FINISHING[2]);
    assert s3.ops == [Finished(MarkedFailed(DuplicateKey)), Finished(Appended(1))];
    assert s3.db.versions == s.db.versions && |s.db.versions| == 1;
    RunThree(s, FINISHING[0], FINISHING[1], FINISHING[2]);
  }

  /** An edit made while the first generate job runs wedges the lecture for good. */
  lemma EditDuringGenerateWedges()
    ensures Wedged(Run(CREATED, OVERTAKING + FINISHING))
  {
    OvertakenIsReachable();
    OvertakenWedges();
    RunSplits(CREATED, OVERTAKING, FINISHING);
  }

  // ---- When an overlap does damage. ----

  /** A generate attempt that goes on with a "no version" snapshot after versions have been stored: it takes the current
      version away exactly when it does not ask for a retry. */
  lemma StaleGenerateWedgesIff(db: Db, doc: Lecture, attempt: nat, ext: Outcome)
    requires InStep(db) && db.versions != map[] && doc.currentVersion == 0
    ensures var Pair(db', result) := Finish(db, GenerateCalling(doc, attempt), ext);
            && db'.versions == db.versions
            && (db'.lecture.currentVersion == 0 <==> !result.WillRetry?)
  {
    var calling := GenerateCalling(doc, attempt);
    assert 1 in db.versions by {
      assert |db.versions| != 0;
    }
    match ext
    case Raised(e) =>
      assert Finish(db, calling, ext) == Finish(db, OnError(doc, GenerateJob(attempt), e), ext);
      ErrorFinishes(db, doc, GenerateJob(attempt), e, ext);
    case Produced(content, tokens) =>
      var charged := db.(usage := db.usage + [tokens]);
      var inserting := GenerateInserting(doc, content);
      assert Finish(db, calling, ext) == Finish(charged, inserting, ext);
      SavingFinishes(charged, Marked(doc, DuplicateKey), MarkedFailed(DuplicateKey), ext);
      assert Finish(charged, inserting, ext)
             == Pair(charged.(lecture := Marked(doc, DuplicateKey)), MarkedFailed(DuplicateKey));
  }

  /** A refine attempt that goes on with a snapshot behind the history: it leaves the lecture behind exactly when it is
      marked failed; when it succeeds it takes the next free number and the lecture is in step again. */
  lemma StaleRefineFallsBehindIff(db: Db, doc: Lecture, job: Job, ext: Outcome)
    requires InStep(db) && doc.currentVersion < |db.versions|
    ensures var Pair(db', result) := Finish(db, RefineCalling(doc, job), ext);
            && (!InStep(db') <==> result.MarkedFailed?)
            && (result.MarkedFailed? ==>
                  db'.lecture.currentVersion == doc.currentVersion && db'.versions == db.versions)
  {
    var calling := RefineCalling(doc, job);
    match ext
    case Raised(e) =>
      assert Finish(db, calling, ext) == Finish(db, OnError(doc, job, e), ext);
      ErrorFinishes(db, doc, job, e, ext);
    case Produced(content, tokens) =>
      var charged := db.(usage := db.usage + [tokens]);
      var number := NextVersionNumber(db.versions);
      assert number == |db.versions| + 1;
      assert Finish(db, calling, ext) == Finish(charged, RefineNumbering(doc, content), ext);
      assert Finish(charged, RefineNumbering(doc, content), ext)
             == Finish(charged, RefineInserting(doc, content, number), ext);
      AppendingFinishes(charged, RefineInserting(doc, content, number), ext, number, Version(content, AiRefined), doc);
  }

  /** A lecture behind its own history: its row names no version or an old one. */
  ghost predicate IsBehind(db: Db) {
    Contiguous(db.versions) && db.lecture.currentVersion < |db.versions|
  }

  /** Handled alone, a request brings such a lecture back in step if and only if it is a refine attempt for which the
      model answers, and the row names a version at all. Everything else fails and leaves it where it is. */
  lemma BehindRecoversIff(db: Db, request: Request)
    requires IsBehind(db)
    ensures var db' := Serve(db, request);
            && (InStep(db') <==>
                  request.Attempt? && request.job.RefineJob? && request.ext.Produced? && db.lecture.currentVersion > 0)
            && (!InStep(db') ==> db'.versions == db.versions && db'.lecture.currentVersion == db.lecture.currentVersion)
  {
    match request
    case Edit(content) => BehindRefuses(db, EditLoaded(db.lecture, content));
    case Rollback(target) =>
      var op := RollbackLoaded(db.lecture, target);
      var op' := Advance(db, op, NO_CALL).snd;
      assert Finish(db, op, NO_CALL) == Finish(db, op', NO_CALL);
      if op'.RollbackFound? {
        BehindRefuses(db, op');
      }
    case Attempt(job, ext) =>
      match job {
        case GenerateJob(attempt) => GenerateAlone(db, attempt, ext);
        case RefineJob(_, _, _) => RefineAlone(db, job, ext);
      }
  }

  lemma BehindRefuses(db: Db, op: Op)
    requires IsBehind(db) && OpOk(op, db.versions)
    requires (op.EditLoaded? || op.RollbackFound?) && op.doc == db.lecture
    ensures Finish(db, op, NO_CALL) == Pair(db, DuplicateError)
  {
    AppendsIffAtHead(db, op, NO_CALL);
    assert Advance(db, op, NO_CALL) == Pair(db, Finished(DuplicateError));
  }

  /** No job step can leave a failed lecture with a version and no transform to replay, unless a
      generate job loads such a lecture. */
  ghost predicate Replayable(doc: Lecture) {
    doc.currentVersion == 0 || doc.lastTransform.Some?
  }

  ghost predicate RetryOk(op: Op) {
    match op
    case GenerateLoaded(doc, _) => Replayable(doc)
    case GenerateCalling(doc, _) => Replayable(doc)
    case GenerateInserting(doc, _) => Replayable(doc)
    case RefineLoaded(_, job) => job.RefineJob?
    case RefineReading(doc, job) => doc.lastTransform.Some?
    case RefineCalling(doc, job) => doc.lastTransform.Some?
    case RefineNumbering(doc, _) => doc.lastTransform.Some?
    case RefineInserting(doc, _, _) => doc.lastTransform.Some?
    case Saving(doc, _) => doc.status == Failed ==> Replayable(doc)
    case _ => true
  }

  /** Every generate job of the run loads a lecture that has no version yet, or a transform to replay. */
  ghost predicate GenerateLoadsReplayable(s: Sys, actions: seq<Action>)
    decreases |actions|
  {
    actions == [] ||
    (&& (var a := actions[0];
         a.StartJob? && a.k < |s.queue| && s.queue[a.k].GenerateJob? ==> Replayable(s.db.lecture))
     && GenerateLoadsReplayable(Next(s, actions[0]), actions[1..]))
  }

  ghost predicate RetryInv(s: Sys) {
    && (s.db.lecture.status == Failed ==> Replayable(s.db.lecture))
    && forall i :: 0 <= i < |s.ops| ==> RetryOk(s.ops[i])
  }

  lemma RetryOkStep(db: Db, op: Op, ext: Outcome)
    requires RetryOk(op) && (db.lecture.status == Failed ==> Replayable(db.lecture))
    ensures var Pair(db', op') := Advance(db, op, ext);
            RetryOk(op') && (db'.lecture.status == Failed ==> Replayable(db'.lecture))
  {
  }

  lemma RetryInvStep(s: Sys, a: Action)
    requires RetryInv(s)
    requires a.StartJob? && a.k < |s.queue| && s.queue[a.k].GenerateJob? ==> Replayable(s.db.lecture)
    ensures RetryInv(Next(s, a))
  {
    if a.Step? && a.i < |s.ops| {
      RetryOkStep(s.db, s.ops[a.i], a.ext);
    }
  }

  lemma {:induction false} RetryInvHolds(s: Sys, actions: seq<Action>)
    requires RetryInv(s) && GenerateLoadsReplayable(s, actions)
    ensures RetryInv(Run(s, actions))
    decreases |actions|
  {
    if actions != [] {
      RetryInvStep(s, actions[0]);
      RetryInvHolds(Next(s, actions[0]), actions[1..]);
    }
  }

  /** The last branch of `retry_lecture` is not reached in any run whose generate jobs all load such
      a lecture. */
  lemma RetryAlwaysDispatches(actions: seq<Action>)
    requires GenerateLoadsReplayable(CREATED, actions)
    ensures DecideRetry(Run(CREATED, actions).db.lecture) != NothingToRetry
  {
    RetryInvHolds(CREATED, actions);
  }

  /** The condition is exact: a generate job that runs to its end alone, without asking for a retry,
      reaches the dead end if and only if the lecture it loads has a version and no transform. */
  lemma DeadEndIffNotReplayable(db: Db, attempt: nat, ext: Outcome)
    requires Contiguous(db.versions) && db.lecture.currentVersion <= |db.versions|
    requires !Finish(db, LoadJob(db, GenerateJob(attempt)), ext).snd.WillRetry?
    ensures DecideRetry(Finish(db, LoadJob(db, GenerateJob(attempt)), ext).fst.lecture) == NothingToRetry
       <==> db.lecture.currentVersion > 0 && db.lecture.lastTransform.None?
  {
    GenerateAlone(db, attempt, ext);
    if db.lecture.currentVersion > 0 {
      assert db.lecture.currentVersion in db.versions;
    }
  }

  /** A retry request dispatches a fresh attempt at what failed: the first generation while there is no version, and
      else the refine that failed, with its transform and language. After any other ending there is nothing to retry. */
  lemma RetryRepeatsTheJob(db: Db, job: Job, ext: Outcome)
    requires Contiguous(db.versions) && db.lecture.currentVersion <= |db.versions|
    ensures var Pair(db', result) := Finish(db, LoadJob(db, job), ext);
            && (!result.MarkedFailed? ==> DecideRetry(db'.lecture) == NotFailed)
            && (result.MarkedFailed? && db.lecture.currentVersion == 0 ==>
                  DecideRetry(db'.lecture) == DispatchJob(GenerateJob(0)))
            && (result.MarkedFailed? && db.lecture.currentVersion > 0 && job.RefineJob? ==>
                  DecideRetry(db'.lecture) == DispatchJob(RefineJob(job.transform, job.language, 0)))
            && (result.MarkedFailed? && db.lecture.currentVersion > 0 && job.GenerateJob?
                && db.lecture.lastTransform.Some? ==>
                  DecideRetry(db'.lecture)
                  == DispatchJob(RefineJob(db.lecture.lastTransform.value, db.lecture.lastLanguage, 0)))
  {
    match job
    case GenerateJob(attempt) => GenerateAlone(db, attempt, ext);
    case RefineJob(_, _, _) => RefineAlone(db, job, ext);
  }

  const GENERATING: Lecture := Lecture(Generating, None, 0, None, None)
  const FAILED_ONCE: Lecture := Marked(GENERATING, QuotaExceeded)
  const EDITED: Lecture := Live(FAILED_ONCE, 1)
  const GONE: Op := Finished(MarkedFailed(QuotaExceeded))

  /** The first generate job has failed on the quota and a retry of it is queued. */
  const RETRY_QUEUED: Sys := Sys(Db(FAILED_ONCE, map[], []), [GenerateJob(0)], [GONE])

  /** A teacher has then edited the lecture by hand, and the retried job has just loaded it. */
  const RETRY_LOADED: Sys :=
    Sys(Db(EDITED, map[1 := Version("edited", ManualEdit)], []), [],
        [GONE, Finished(Appended(1)), GenerateLoaded(EDITED, 0)])

  lemma RetryQueuedIsReachable()
    ensures exists actions :: Run(CREATED, actions) == RETRY_QUEUED
  {
    var s2 := Next(Next(CREATED, StartJob(0)), Step(0, NO_CALL));
    assert s2.ops == [GenerateCalling(GENERATING, 0)] && s2.queue == [];
    var s3 := Next(s2, Step(0, Raised(QuotaExceeded)));
    assert s3.ops == [Saving(FAILED_ONCE, MarkedFailed(QuotaExceeded))];
    var s5 := Next(Next(s3, Step(0, NO_CALL)), RequestRetry);
    assert s5.queue == [GenerateJob(0)];
    var first := [StartJob(0), Step(0, NO_CALL), Step(0, Raised(QuotaExceeded))];
    RunThree(CREATED, first[0], first[1], first[2]);
    RunSnoc(CREATED, first, Step(0, NO_CALL));
    RunSnoc(CREATED, first + [Step(0, NO_CALL)], RequestRetry);
  }

  lemma RetryLoadedIsReachable()
    ensures exists actions :: Run(RETRY_QUEUED, actions) == RETRY_LOADED
  {
    var s2 := Next(Next(RETRY_QUEUED, StartEdit("edited")), Step(1, NO_CALL));
    assert s2.ops == [GONE, Saving(EDITED, Appended(1))];
    var s4 := Next(Next(s2, Step(1, NO_CALL)), StartJob(0));
    assert s4.ops == RETRY_LOADED.ops && s4.queue == [];
    var first := [StartEdit("edited"), Step(1, NO_CALL), Step(1, NO_CALL)];
    RunThree(RETRY_QUEUED, first[0], first[1], first[2]);
    RunSnoc(RETRY_QUEUED, first, StartJob(0));
  }

  lemma RetriedJobFails() returns (actions: seq<Action>)
    ensures DecideRetry(Run(RETRY_LOADED, actions).db.lecture) == NothingToRetry
  {
    var a, b, c := Step(2, NO_CALL), Step(2, Raised(QuotaExceeded)), Step(2, NO_CALL);
    var doc := EDITED.(status := Generating);
    var s1 := Next(RETRY_LOADED, a);
    assert s1.ops[2] == GenerateCalling(doc, 0) && |s1.ops| == 3;
    var s2 := Next(s1, b);
    assert s2.ops[2] == Saving(Marked(doc, QuotaExceeded), MarkedFailed(QuotaExceeded));
    assert Next(s2, c).db.lecture == Marked(doc, QuotaExceeded);
    RunThree(RETRY_LOADED, a, b, c);
    actions := [a, b, c];
  }

  /** The last branch of `retry_lecture` is reachable: a retried generate job waits in the queue while
      a teacher edits the lecture, and then fails. No two operations overlap in this run. */
  lemma RetryDeadEndIsReachable()
    ensures exists actions :: DecideRetry(Run(CREATED, actions).db.lecture) == NothingToRetry
  {
    RetryQueuedIsReachable();
    var before :| Run(CREATED, before) == RETRY_QUEUED;
    RetryLoadedIsReachable();
    var middle :| Run(RETRY_QUEUED, middle) == RETRY_LOADED;
    var last := RetriedJobFails();
    RunSplits(CREATED, before, middle);
    RunSplits(CREATED, before + middle, last);
    assert DecideRetry(Run(CREATED, before + middle + last).db.lecture) == NothingToRetry;
  }
}
