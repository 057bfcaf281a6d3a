/** What every interleaving of edits, rollbacks, generate jobs and refine jobs keeps. */
module PlannerSafety {
  import opened Planner

  /** The stored version numbers are exactly 1, 2, ..., n. */
  ghost predicate Contiguous(versions: map<nat, Version>) {
    forall v: nat :: v in versions <==> 1 <= v <= |versions|
  }

  /** The history `after` extends `before`: nothing removed, nothing rewritten. */
  ghost predicate Extends(before: map<nat, Version>, after: map<nat, Version>) {
    |before| <= |after| && forall v :: v in before ==> v in after && after[v] == before[v]
  }

  /** What an operation in flight may hold: stale snapshots, but never one ahead of the history. */
  ghost predicate OpOk(op: Op, versions: map<nat, Version>) {
    match op
    case RollbackFound(doc, target, content) =>
      doc.currentVersion <= |versions| && target >= 0 && target as nat in versions &&
      versions[target as nat].content == content
    case RefineInserting(doc, _, number) => doc.currentVersion <= |versions| && 1 <= number <= |versions| + 1
    case Finished(_) => true
    case _ => op.doc.currentVersion <= |versions|
  }

  ghost predicate Inv(s: Sys) {
    && Contiguous(s.db.versions)
    && s.db.lecture.currentVersion <= |s.db.versions|
    && forall i :: 0 <= i < |s.ops| ==> OpOk(s.ops[i], s.db.versions)
  }

  lemma AppendKeepsContiguous(versions: map<nat, Version>, number: nat, row: Version)
    requires Contiguous(versions) && number !in versions && 1 <= number <= |versions| + 1
    ensures number == |versions| + 1
    ensures Contiguous(versions[number := row]) && Extends(versions, versions[number := row])
  {
    assert |versions[number := row]| == |versions| + 1;
  }

  lemma AdvanceKeeps(db: Db, op: Op, ext: Outcome)
    requires Contiguous(db.versions) && db.lecture.currentVersion <= |db.versions| && OpOk(op, db.versions)
    ensures var Pair(db', op') := Advance(db, op, ext);
            && Contiguous(db'.versions) && Extends(db.versions, db'.versions)
            && db'.lecture.currentVersion <= |db'.versions| && OpOk(op', db'.versions)
  {
    match op
    case EditLoaded(doc, content) =>
      if doc.currentVersion + 1 !in db.versions {
        AppendKeepsContiguous(db.versions, doc.currentVersion + 1, Version(content, ManualEdit));
      }
    case RollbackFound(doc, target, content) =>
      if doc.currentVersion + 1 !in db.versions {
        AppendKeepsContiguous(db.versions, doc.currentVersion + 1, Version(content, RolledBack));
      }
    case GenerateInserting(doc, content) =>
      if 1 !in db.versions {
        AppendKeepsContiguous(db.versions, 1, Version(content, AiGenerated));
      }
    case RefineInserting(doc, content, number) =>
      if number !in db.versions {
        AppendKeepsContiguous(db.versions, number, Version(content, AiRefined));
      }
    case _ =>
  }

  lemma NextKeeps(s: Sys, a: Action)
    requires Inv(s)
    ensures Inv(Next(s, a)) && Extends(s.db.versions, Next(s, a).db.versions)
  {
    if a.Step? && a.i < |s.ops| {
      AdvanceKeeps(s.db, s.ops[a.i], a.ext);
    }
  }

  /** The main safety theorem, from any state that satisfies the invariant. */
  lemma {:induction false} RunKeeps(s: Sys, actions: seq<Action>)
    requires Inv(s)
    ensures Inv(Run(s, actions)) && Extends(s.db.versions, Run(s, actions).db.versions)
    decreases |actions|
  {
    if actions != [] {
      NextKeeps(s, actions[0]);
      RunKeeps(Next(s, actions[0]), actions[1..]);
    }
  }

  /** Every run from a new lecture: the versions are exactly 1..n, the current version is one of
      them (or 0), and its content can be read. */
  lemma EveryRunIsContiguous(actions: seq<Action>)
    ensures var db := Run(CREATED, actions).db;
            && (forall v: nat :: v in db.versions <==> 1 <= v <= |db.versions|)
            && db.lecture.currentVersion <= |db.versions|
            && (GetCurrentContent(db).Some? <==> db.lecture.currentVersion > 0)
  {
    RunKeeps(CREATED, actions);
  }

  lemma {:induction false} RunSplits(s: Sys, before: seq<Action>, after: seq<Action>)
    ensures Run(s, before + after) == Run(Run(s, before), after)
    decreases |before|
  {
    if before == [] {
      assert before + after == after;
    } else {
      assert (before + after)[1..] == before[1..] + after;
      RunSplits(Next(s, before[0]), before[1..], after);
    }
  }

  /** In every run a refine can be requested exactly when there is content to refine and no job is shown at work. */
  lemma RefineNeedsContent(actions: seq<Action>)
    ensures var db := Run(CREATED, actions).db;
            CanRefine(db.lecture) <==> GetCurrentContent(db).Some? && db.lecture.status != Generating
  {
    EveryRunIsContiguous(actions);
  }

  /** Along every run the history only grows: a stored version keeps its content for good. */
  lemma HistoryIsAppendOnly(before: seq<Action>, after: seq<Action>)
    ensures Extends(Run(CREATED, before).db.versions, Run(CREATED, before + after).db.versions)
  {
    RunSplits(CREATED, before, after);
    RunKeeps(CREATED, before);
    RunKeeps(Run(CREATED, before), after);
  }
}

/** What the model is paid for, over every interleaving. */
module PlannerCharges {
  import opened Planner

  /** The numbers of the versions a language model wrote. */
  function AiVersions(versions: map<nat, Version>): set<nat> {
    set v | v in versions && (versions[v].source.AiGenerated? || versions[v].source.AiRefined?)
  }

  /** The operation has been charged and has not stored its version yet. */
  predicate Charged(op: Op) {
    op.GenerateInserting? || op.RefineNumbering? || op.RefineInserting?
  }

  function ChargedOps(ops: seq<Op>): nat {
    if ops == [] then 0 else (if Charged(ops[0]) then 1 else 0) + ChargedOps(ops[1..])
  }

  lemma {:induction false} ChargedUpdate(ops: seq<Op>, i: nat, op: Op)
    requires i < |ops|
    ensures ChargedOps(ops[i := op]) + (if Charged(ops[i]) then 1 else 0)
            == ChargedOps(ops) + (if Charged(op) then 1 else 0)
    decreases |ops|
  {
    if i == 0 {
      assert ops[i := op][1..] == ops[1..];
    } else {
      assert ops[i := op][1..] == ops[1..][i - 1 := op];
      ChargedUpdate(ops[1..], i - 1, op);
    }
  }

  lemma {:induction false} ChargedAppend(ops: seq<Op>, op: Op)
    ensures ChargedOps(ops + [op]) == ChargedOps(ops) + (if Charged(op) then 1 else 0)
    decreases |ops|
  {
    if ops == [] {
      assert [] + [op] == [op] && [op][1..] == [];
    } else {
      assert (ops + [op])[1..] == ops[1..] + [op];
      ChargedAppend(ops[1..], op);
    }
  }

  lemma StoringAdds(versions: map<nat, Version>, number: nat, row: Version)
    requires number !in versions
    ensures |AiVersions(versions[number := row])|
            == |AiVersions(versions)| + (if row.source.AiGenerated? || row.source.AiRefined? then 1 else 0)
  {
    var more := versions[number := row];
    if row.source.AiGenerated? || row.source.AiRefined? {
      assert AiVersions(more) == AiVersions(versions) + {number};
    } else {
      assert AiVersions(more) == AiVersions(versions);
    }
  }

  /** A step that stores a version of the model spends a charge, and a step that charges has not stored yet. */
  lemma AdvancePays(db: Db, op: Op, ext: Outcome)
    ensures var Pair(db', op') := Advance(db, op, ext);
            |AiVersions(db'.versions)| + (if Charged(op') then 1 else 0) + |db.usage|
            <= |AiVersions(db.versions)| + (if Charged(op) then 1 else 0) + |db'.usage|
  {
    match op
    case EditLoaded(doc, content) =>
      if doc.currentVersion + 1 !in db.versions {
        StoringAdds(db.versions, doc.currentVersion + 1, Version(content, ManualEdit));
      }
    case RollbackFound(doc, target, content) =>
      if doc.currentVersion + 1 !in db.versions {
        StoringAdds(db.versions, doc.currentVersion + 1, Version(content, RolledBack));
      }
    case GenerateInserting(doc, content) =>
      if 1 !in db.versions {
        StoringAdds(db.versions, 1, Version(content, AiGenerated));
      }
    case RefineInserting(doc, content, number) =>
      if number !in db.versions {
        StoringAdds(db.versions, number, Version(content, AiRefined));
      }
    case _ =>
  }

  lemma NextPays(s: Sys, a: Action)
    requires |AiVersions(s.db.versions)| + ChargedOps(s.ops) <= |s.db.usage|
    ensures var s' := Next(s, a); |AiVersions(s'.db.versions)| + ChargedOps(s'.ops) <= |s'.db.usage|
  {
    match a
    case StartEdit(content) => ChargedAppend(s.ops, EditLoaded(s.db.lecture, content));
    case StartRollback(target) => ChargedAppend(s.ops, RollbackLoaded(s.db.lecture, target));
    case StartJob(k) =>
      if k < |s.queue| {
        ChargedAppend(s.ops, LoadJob(s.db, s.queue[k]));
      }
    case Step(i, ext) =>
      if i < |s.ops| {
        AdvancePays(s.db, s.ops[i], ext);
        ChargedUpdate(s.ops, i, Advance(s.db, s.ops[i], ext).snd);
      }
    case _ =>
  }

  lemma {:induction false} RunPays(s: Sys, actions: seq<Action>)
    requires |AiVersions(s.db.versions)| + ChargedOps(s.ops) <= |s.db.usage|
    ensures var s' := Run(s, actions); |AiVersions(s'.db.versions)| + ChargedOps(s'.ops) <= |s'.db.usage|
    decreases |actions|
  {
    if actions != [] {
      NextPays(s, actions[0]);
      RunPays(Next(s, actions[0]), actions[1..]);
    }
  }

  /** In every run, however interleaved, there are at most as many versions written by the model as charges. */
  lemma EveryAiVersionIsCharged(actions: seq<Action>)
    ensures var db := Run(CREATED, actions).db; |AiVersions(db.versions)| <= |db.usage|
  {
    assert AiVersions(CREATED.db.versions) == {};
    RunPays(CREATED, actions);
  }
}

/** What holds when operations do not overlap, and what the stale writes of overlapping ones can break. */
module PlannerSequential {
  import opened Common
  import opened Planner
  import opened PlannerSafety

  /** `op` run to its end with nothing else touching the lecture. */
  function Finish(db: Db, op: Op, ext: Outcome): Pair<Db, Result>
    decreases op.Rank()
  {
    if op.Finished? then Pair(db, op.result)
    else
      var Pair(db', op') := Advance(db, op, ext);
      Finish(db', op', ext)
  }

  /** No operation is pending and the current version is the newest one. */
  ghost predicate InStep(db: Db) {
    Contiguous(db.versions) && db.lecture.currentVersion == |db.versions|
  }

  lemma SavingFinishes(db: Db, doc: Lecture, result: Result, ext: Outcome)
    ensures Finish(db, Saving(doc, result), ext) == Pair(db.(lecture := doc), result)
  {
    assert Advance(db, Saving(doc, result), ext) == Pair(db.(lecture := doc), Finished(result));
  }

  /** A step that stores version `number` and goes on to save the snapshot. */
  lemma AppendingFinishes(db: Db, op: Op, ext: Outcome, number: nat, row: Version, doc: Lecture)
    requires Contiguous(db.versions) && number == |db.versions| + 1
    requires !op.Finished?
    requires Advance(db, op, ext) == Pair(WithVersion(db, number, row), Saving(Live(doc, number), Appended(number)))
    ensures var Pair(db', result) := Finish(db, op, ext);
            && result == Appended(number) && InStep(db') && db'.versions == db.versions[number := row]
            && db'.lecture == Live(doc, number) && db'.usage == db.usage
            && GetCurrentContent(db') == Some(row.content)
            && Extends(db.versions, db'.versions)
  {
    AppendKeepsContiguous(db.versions, number, row);
    SavingFinishes(WithVersion(db, number, row), Live(doc, number), Appended(number), ext);
  }

  lemma EditAlone(db: Db, content: string, ext: Outcome)
    requires InStep(db)
    ensures var Pair(db', result) := Finish(db, EditLoaded(db.lecture, content), ext);
            && result == Appended(|db.versions| + 1) && InStep(db')
            && db'.versions == db.versions[|db.versions| + 1 := Version(content, ManualEdit)]
            && db'.lecture.status == Ready && db'.lecture.error == None && GetCurrentContent(db') == Some(content)
  {
    AppendingFinishes(db, EditLoaded(db.lecture, content), ext, |db.versions| + 1,
                      Version(content, ManualEdit), db.lecture);
  }

  /** Rolling back to `target` appends a copy of it; an unknown target changes nothing. */
  lemma RollbackAlone(db: Db, target: int, ext: Outcome)
    requires InStep(db)
    ensures var Pair(db', result) := Finish(db, RollbackLoaded(db.lecture, target), ext);
            if 1 <= target <= |db.versions| then
              && result == Appended(|db.versions| + 1) && InStep(db')
              && db'.versions == db.versions[|db.versions| + 1 := Version(db.versions[target].content, RolledBack)]
              && GetCurrentContent(db') == Some(db.versions[target].content)
            else db' == db && result == NotFound
  {
    var op := RollbackLoaded(db.lecture, target);
    if 1 <= target <= |db.versions| {
      var content := db.versions[target].content;
      var found := RollbackFound(db.lecture, target, content);
      assert Advance(db, op, ext) == Pair(db, found);
      AppendingFinishes(db, found, ext, |db.versions| + 1, Version(content, RolledBack), db.lecture);
      assert Finish(db, op, ext) == Finish(db, found, ext);
    } else {
      assert target < 0 || target as nat !in db.versions;
    }
  }

  /** What one attempt of a background job may do to a lecture it has to itself: it asks for a retry
      and leaves history and usage alone, or ends READY with one new and charged version, or ends
      FAILED with no new version. */
  ghost predicate AttemptOk(db: Db, job: Job, ext: Outcome, db': Db, result: Result) {
    && Contiguous(db'.versions) && db'.lecture.currentVersion <= |db'.versions|
    && (InStep(db) ==> InStep(db'))
    && match result
       case WillRetry(next) =>
         && next == job.(attempt := job.attempt + 1) && job.attempt < MAX_RETRIES
         && ext.Raised? && Transient(ext.e) && db'.lecture.currentVersion == db.lecture.currentVersion
         && db'.lecture.status == Generating
         && db'.versions == db.versions && db'.usage == db.usage
       case Appended(n) =>
         && ext.Produced? && n == |db.versions| + 1 && (job.GenerateJob? ==> n == 1)
         && db'.versions == db.versions[n := Version(ext.content, if job.GenerateJob? then AiGenerated else AiRefined)]
         && db'.lecture.status == Ready && db'.lecture.currentVersion == n && db'.lecture.error == None
         && db'.usage == db.usage + [ext.tokens]
       case MarkedFailed(e) =>
         && db'.lecture.status == Failed && db'.lecture.error == Some(e)
         && db'.lecture.currentVersion == db.lecture.currentVersion
         && db'.versions == db.versions
         && db'.usage == (if ext.Produced? && e.DuplicateKey? then db.usage + [ext.tokens] else db.usage)
       case _ => false
  }

  lemma ErrorFinishes(db: Db, doc: Lecture, job: Job, e: Exn, ext: Outcome)
    ensures Finish(db, OnError(doc, job, e), ext) ==
            if Transient(e) && job.attempt < MAX_RETRIES then Pair(db, WillRetry(Retried(job)))
            else Pair(db.(lecture := Marked(doc, e)), MarkedFailed(e))
  {
    if !(Transient(e) && job.attempt < MAX_RETRIES) {
      SavingFinishes(db, Marked(doc, e), MarkedFailed(e), ext);
    }
  }

  lemma GenerateAlone(db: Db, attempt: nat, ext: Outcome)
    requires Contiguous(db.versions) && db.lecture.currentVersion <= |db.versions|
    ensures var Pair(db', result) := Finish(db, LoadJob(db, GenerateJob(attempt)), ext);
            && AttemptOk(db, GenerateJob(attempt), ext, db', result)
            && (!result.Appended? ==>
                  && db'.lecture.lastTransform == db.lecture.lastTransform
                  && db'.lecture.lastLanguage == db.lecture.lastLanguage)
            && (result.Appended? <==> ext.Produced? && db.versions == map[])
            && (result.WillRetry? <==>
                  attempt < 3 && (ext == Raised(LlmProxyError) || ext == Raised(EmbeddingServiceError)))
  {
    var doc := db.lecture.(status := Generating);
    var db1 := db.(lecture := doc);
    var calling := GenerateCalling(doc, attempt);
    assert Finish(db, LoadJob(db, GenerateJob(attempt)), ext) == Finish(db1, calling, ext);
    match ext
    case Raised(e) =>
      assert Finish(db1, calling, ext) == Finish(db1, OnError(doc, GenerateJob(attempt), e), ext);
      ErrorFinishes(db1, doc, GenerateJob(attempt), e, ext);
    case Produced(content, tokens) =>
      var db2 := db1.(usage := db.usage + [tokens]);
      var inserting := GenerateInserting(doc, content);
      assert Finish(db1, calling, ext) == Finish(db2, inserting, ext);
      assert 1 in db.versions <==> |db.versions| != 0;
      if 1 in db.versions {
        SavingFinishes(db2, Marked(doc, DuplicateKey), MarkedFailed(DuplicateKey), ext);
        assert Finish(db2, inserting, ext)
               == Pair(db2.(lecture := Marked(doc, DuplicateKey)), MarkedFailed(DuplicateKey));
      } else {
        AppendingFinishes(db2, inserting, ext, 1, Version(content, AiGenerated), doc);
      }
  }

  lemma RefineAlone(db: Db, job: Job, ext: Outcome)
    requires Contiguous(db.versions) && db.lecture.currentVersion <= |db.versions| && job.RefineJob?
    ensures var Pair(db', result) := Finish(db, LoadJob(db, job), ext);
            && AttemptOk(db, job, ext, db', result)
            && db'.lecture.lastTransform == Some(job.transform) && db'.lecture.lastLanguage == job.language
            && (result.Appended? <==> ext.Produced? && db.lecture.currentVersion > 0)
            && (result.WillRetry? <==>
                  && db.lecture.currentVersion > 0 && job.attempt < 3
                  && (ext == Raised(LlmProxyError) || ext == Raised(EmbeddingServiceError)))
  {
    var doc := RefineStarted(db.lecture, job);
    var db1 := db.(lecture := doc);
    assert Finish(db, LoadJob(db, job), ext) == Finish(db1, RefineReading(doc, job), ext);
    if doc.currentVersion !in db.versions {
      SavingFinishes(db1, Marked(doc, NoVersionToRefine), MarkedFailed(NoVersionToRefine), ext);
      assert Finish(db1, RefineReading(doc, job), ext)
          == Pair(db1.(lecture := Marked(doc, NoVersionToRefine)), MarkedFailed(NoVersionToRefine));
    } else {
      var calling := RefineCalling(doc, job);
      assert Finish(db1, RefineReading(doc, job), ext) == Finish(db1, calling, ext);
      match ext
      case Raised(e) =>
        assert Finish(db1, calling, ext) == Finish(db1, OnError(doc, job, e), ext);
        ErrorFinishes(db1, doc, job, e, ext);
      case Produced(content, tokens) =>
        var db2 := db1.(usage := db.usage + [tokens]);
        var number := NextVersionNumber(db.versions);
        assert number == |db.versions| + 1;
        assert Finish(db1, calling, ext) == Finish(db2, RefineNumbering(doc, content), ext);
        assert Finish(db2, RefineNumbering(doc, content), ext)
               == Finish(db2, RefineInserting(doc, content, number), ext);
        AppendingFinishes(db2, RefineInserting(doc, content, number), ext, number, Version(content, AiRefined), doc);
    }
  }

  lemma AttemptAlone(db: Db, job: Job, ext: Outcome)
    requires Contiguous(db.versions) && db.lecture.currentVersion <= |db.versions|
    ensures var Pair(db', result) := Finish(db, LoadJob(db, job), ext);
            AttemptOk(db, job, ext, db', result)
  {
    match job
    case GenerateJob(attempt) => GenerateAlone(db, attempt, ext);
    case RefineJob(_, _, _) => RefineAlone(db, job, ext);
  }

  /** A request handled while nothing else runs. */
  datatype Request = Edit(content: string) | Rollback(target: int) | Attempt(job: Job, ext: Outcome)

  function Serve(db: Db, request: Request): Db {
    match request
    case Edit(content) => Finish(db, EditLoaded(db.lecture, content), NO_CALL).fst
    case Rollback(target) => Finish(db, RollbackLoaded(db.lecture, target), NO_CALL).fst
    case Attempt(job, ext) => Finish(db, LoadJob(db, job), ext).fst
  }

  function ServeAll(db: Db, requests: seq<Request>): Db
    decreases |requests|
  {
    if requests == [] then db else ServeAll(Serve(db, requests[0]), requests[1..])
  }

  /** One at a time, the versions stay exactly 1..currentVersion. */
  lemma {:induction false} OneAtATime(db: Db, requests: seq<Request>)
    requires InStep(db)
    ensures InStep(ServeAll(db, requests))
    decreases |requests|
  {
    if requests != [] {
      match requests[0] {
        case Edit(content) => EditAlone(db, content, NO_CALL);
        case Rollback(target) => RollbackAlone(db, target, NO_CALL);
        case Attempt(job, ext) => AttemptAlone(db, job, ext);
      }
      OneAtATime(Serve(db, requests[0]), requests[1..]);
    }
  }

  /** The attempts of one queued job. Attempt k starts from `dbs[k]`, whatever other operations made
      of the lecture meanwhile; the chain stops at the first attempt that asks for no retry. */
  function Chain(job: Job, dbs: seq<Db>, exts: seq<Outcome>): (results: seq<Pair<Db, Result>>)
    requires |dbs| == |exts|
    decreases |dbs|
  {
    if dbs == [] then []
    else
      var r := Finish(dbs[0], LoadJob(dbs[0], job), exts[0]);
      if r.snd.WillRetry? then [r] + Chain(r.snd.job, dbs[1..], exts[1..]) else [r]
  }

  /** Every attempt but the last leaves history and usage alone; the last one ends READY or FAILED, and
      charges and appends at most once, never a version without its charge. */
  ghost predicate ChainOk(rs: seq<Pair<Db, Result>>, dbs: seq<Db>)
    requires |rs| <= |dbs|
    decreases |rs|
  {
    && rs != []
    && var Pair(db', result) := rs[0];
       if |rs| > 1 then
         && db'.versions == dbs[0].versions && db'.usage == dbs[0].usage && ChainOk(rs[1..], dbs[1..])
       else
         && (result.Appended? || result.MarkedFailed?)
         && db'.lecture.status == (if result.Appended? then Ready else Failed)
         && |db'.usage| <= |dbs[0].usage| + 1
         && |db'.versions| <= |dbs[0].versions| + 1
         && (db'.versions != dbs[0].versions ==> |db'.usage| == |dbs[0].usage| + 1)
  }

  /** A job makes at most four attempts, and they end as they should. */
  lemma {:induction false} ChainIsBounded(job: Job, dbs: seq<Db>, exts: seq<Outcome>)
    requires |dbs| == |exts| && job.attempt <= MAX_RETRIES && |dbs| >= MAX_RETRIES + 1 - job.attempt
    requires forall k :: 0 <= k < |dbs| ==>
               Contiguous(dbs[k].versions) && dbs[k].lecture.currentVersion <= |dbs[k].versions|
    ensures var rs := Chain(job, dbs, exts);
            1 <= |rs| <= MAX_RETRIES + 1 - job.attempt && ChainOk(rs, dbs)
    decreases |dbs|
  {
    AttemptAlone(dbs[0], job, exts[0]);
    var r := Finish(dbs[0], LoadJob(dbs[0], job), exts[0]);
    if r.snd.WillRetry? {
      var rest := Chain(r.snd.job, dbs[1..], exts[1..]);
      ChainIsBounded(r.snd.job, dbs[1..], exts[1..]);
      assert Chain(job, dbs, exts) == [r] + rest && ([r] + rest)[1..] == rest;
    }
  }
}
