/** The Planner: lectures, their append-only version history, and the background jobs.

    `Advance` is one database step of one in-flight operation. An operation works on its own
    snapshot of the lecture and saves the whole snapshot back, so a run that interleaves several
    operations contains stale writes. `Run` plays any sequence of actions against one lecture. */
module Planner {
  import opened Common

  const MAX_RETRIES: nat := 3

  datatype Status = Pending | Generating | Ready | Failed

  datatype Source = AiGenerated | AiRefined | ManualEdit | RolledBack

  datatype Version = Version(content: string, source: Source)

  datatype Exn = LlmProxyError | EmbeddingServiceError | QuotaExceeded | DuplicateKey | NoVersionToRefine | OtherError

  predicate Transient(e: Exn) {
    e.LlmProxyError? || e.EmbeddingServiceError?
  }

  /** The mutable fields of a stored lecture. */
  datatype Lecture = Lecture(status: Status, error: Option<Exn>, currentVersion: nat,
                             lastTransform: Option<string>, lastLanguage: Option<string>)

  /** One lecture row, its version rows keyed by number, and the token amounts charged for it. */
  datatype Db = Db(lecture: Lecture, versions: map<nat, Version>, usage: seq<nat>)

  /** What the quota check, retrieval and language model do inside one attempt. */
  datatype Outcome = Produced(content: string, tokens: nat) | Raised(e: Exn)

  /** Stands in where no language model is called. */
  const NO_CALL: Outcome := Raised(OtherError)

  datatype Job = GenerateJob(attempt: nat) | RefineJob(transform: string, language: Option<string>, attempt: nat)

  datatype Result =
    | Appended(version: nat)
    | NotFound
    | DuplicateError
    | MarkedFailed(e: Exn)
    | WillRetry(job: Job)

  /** An operation between two of its database steps. `doc` is its snapshot of the lecture. */
  datatype Op =
    | EditLoaded(doc: Lecture, content: string)
    | RollbackLoaded(doc: Lecture, target: int)
    | RollbackFound(doc: Lecture, target: int, content: string)
    | GenerateLoaded(doc: Lecture, attempt: nat)
    | GenerateCalling(doc: Lecture, attempt: nat)
    | GenerateInserting(doc: Lecture, content: string)
    | RefineLoaded(doc: Lecture, job: Job)
    | RefineReading(doc: Lecture, job: Job)
    | RefineCalling(doc: Lecture, job: Job)
    | RefineNumbering(doc: Lecture, content: string)
    | RefineInserting(doc: Lecture, content: string, number: nat)
    | Saving(doc: Lecture, result: Result)
    | Finished(result: Result)
  {
    function Rank(): nat {
      match this
      case RefineLoaded(_, _) => 7
      case RefineReading(_, _) => 6
      case RefineCalling(_, _) => 5
      case GenerateLoaded(_, _) => 5
      case RefineNumbering(_, _) => 4
      case GenerateCalling(_, _) => 4
      case RollbackLoaded(_, _) => 4
      case RefineInserting(_, _, _) => 3
      case GenerateInserting(_, _) => 3
      case RollbackFound(_, _, _) => 3
      case EditLoaded(_, _) => 3
      case Saving(_, _) => 1
      case Finished(_) => 0
    }
  }

  function Live(doc: Lecture, number: nat): Lecture {
    doc.(status := Ready, currentVersion := number, error := None)
  }

  function Marked(doc: Lecture, e: Exn): Lecture {
    doc.(status := Failed, error := Some(e))
  }

  lemma {:induction false} SetHasMax(s: set<nat>)
    requires s != {}
    ensures exists x :: x in s && forall y :: y in s ==> y <= x
  {
    var a :| a in s;
    var rest := s - {a};
    if rest == {} {
      assert s == {a};
    } else {
      SetHasMax(rest);
      var x :| x in rest && forall y :: y in rest ==> y <= x;
      assert forall y :: y in s ==> y == a || y in rest;
      assert (if a <= x then x else a) in s;
    }
  }

  /** The number the refine job picks: one above the highest stored version, 1 when there is none. */
  function NextVersionNumber(versions: map<nat, Version>): (number: nat)
    ensures number !in versions && 1 <= number
    ensures forall v :: v in versions ==> v < number
    ensures number > 1 ==> number - 1 in versions
  {
    if versions.Keys == {} then 1
    else
      SetHasMax(versions.Keys);
      var latest: nat :| latest in versions.Keys && forall v :: v in versions.Keys ==> v <= latest;
      latest + 1
  }

  /** What `get_current_content` returns for a lecture read together with its versions. */
  function GetCurrentContent(db: Db): Option<string> {
    if db.lecture.currentVersion == 0 || db.lecture.currentVersion !in db.versions then None
    else Some(db.versions[db.lecture.currentVersion].content)
  }

  function Retried(job: Job): Job {
    match job
    case GenerateJob(attempt) => GenerateJob(attempt + 1)
    case RefineJob(transform, language, attempt) => RefineJob(transform, language, attempt + 1)
  }

  /** The two `except` clauses of a job: a transient error with retry budget left is raised to the
      Celery wrapper, any other error marks the snapshot failed. */
  function OnError(doc: Lecture, job: Job, e: Exn): Op {
    if Transient(e) && job.attempt < MAX_RETRIES then Finished(WillRetry(Retried(job)))
    else Saving(Marked(doc, e), MarkedFailed(e))
  }

  /** The `.insert()` of a version row under the unique (lecture, version) index. */
  function WithVersion(db: Db, number: nat, row: Version): Db {
    db.(versions := db.versions[number := row])
  }

  /** One database step of `op`. `ext` is consulted only by the steps that call the language model. */
  function Advance(db: Db, op: Op, ext: Outcome): Pair<Db, Op> {
    match op
    case EditLoaded(doc, content) =>
      var number := doc.currentVersion + 1;
      if number in db.versions then Pair(db, Finished(DuplicateError))
      else Pair(WithVersion(db, number, Version(content, ManualEdit)), Saving(Live(doc, number), Appended(number)))
    case RollbackLoaded(doc, target) =>
      if target < 0 || target as nat !in db.versions then Pair(db, Finished(NotFound))
      else Pair(db, RollbackFound(doc, target, db.versions[target as nat].content))
    case RollbackFound(doc, target, content) =>
      var number := doc.currentVersion + 1;
      if number in db.versions then Pair(db, Finished(DuplicateError))
      else Pair(WithVersion(db, number, Version(content, RolledBack)), Saving(Live(doc, number), Appended(number)))
    case GenerateLoaded(doc, attempt) =>
      var generating := doc.(status := Generating);
      Pair(db.(lecture := generating), GenerateCalling(generating, attempt))
    case GenerateCalling(doc, attempt) =>
      (match ext
       case Produced(content, tokens) => Pair(db.(usage := db.usage + [tokens]), GenerateInserting(doc, content))
       case Raised(e) => Pair(db, OnError(doc, GenerateJob(attempt), e)))
    case GenerateInserting(doc, content) =>
      if 1 in db.versions then Pair(db, Saving(Marked(doc, DuplicateKey), MarkedFailed(DuplicateKey)))
      else Pair(WithVersion(db, 1, Version(content, AiGenerated)), Saving(Live(doc, 1), Appended(1)))
    case RefineLoaded(doc, job) =>
      var refining := RefineStarted(doc, job);
      Pair(db.(lecture := refining), RefineReading(refining, job))
    case RefineReading(doc, job) =>
      if doc.currentVersion in db.versions then Pair(db, RefineCalling(doc, job))
      else Pair(db, Saving(Marked(doc, NoVersionToRefine), MarkedFailed(NoVersionToRefine)))
    case RefineCalling(doc, job) =>
      (match ext
       case Produced(content, tokens) => Pair(db.(usage := db.usage + [tokens]), RefineNumbering(doc, content))
       case Raised(e) => Pair(db, OnError(doc, job, e)))
    case RefineNumbering(doc, content) =>
      Pair(db, RefineInserting(doc, content, NextVersionNumber(db.versions)))
    case RefineInserting(doc, content, number) =>
      if number in db.versions then Pair(db, Saving(Marked(doc, DuplicateKey), MarkedFailed(DuplicateKey)))
      else Pair(WithVersion(db, number, Version(content, AiRefined)), Saving(Live(doc, number), Appended(number)))
    case Saving(doc, result) =>
      Pair(db.(lecture := doc), Finished(result))
    case Finished(_) =>
      Pair(db, op)
  }

  /** A refine attempt remembers its parameters and shows GENERATING before anything can fail. */
  function RefineStarted(doc: Lecture, job: Job): Lecture {
    match job
    case RefineJob(transform, language, _) =>
      doc.(lastTransform := Some(transform), lastLanguage := language, status := Generating)
    case GenerateJob(_) => doc.(status := Generating)
  }

  /** The first read of a background job: it loads the lecture row. */
  function LoadJob(db: Db, job: Job): Op {
    match job
    case GenerateJob(attempt) => GenerateLoaded(db.lecture, attempt)
    case RefineJob(_, _, _) => RefineLoaded(db.lecture, job)
  }

  datatype RetryDecision = DispatchJob(job: Job) | NotFailed | NothingToRetry

  /** `retry_lecture`: which job a retry request dispatches, or which error it raises. */
  function DecideRetry(lecture: Lecture): RetryDecision {
    if lecture.status != Failed then NotFailed
    else if lecture.currentVersion == 0 then DispatchJob(GenerateJob(0))
    else if lecture.lastTransform.Some? then
      DispatchJob(RefineJob(lecture.lastTransform.value, lecture.lastLanguage, 0))
    else NothingToRetry
  }

  /** The guard of a refine request. */
  predicate CanRefine(lecture: Lecture) {
    lecture.currentVersion != 0 && lecture.status != Generating
  }

  /** One lecture, the jobs queued for it, and every operation started on it so far. */
  datatype Sys = Sys(db: Db, queue: seq<Job>, ops: seq<Op>)

  datatype Action =
    | StartEdit(content: string)
    | StartRollback(target: int)
    | RequestRefine(transform: string, language: Option<string>)
    | RequestRetry
    | StartJob(k: nat)
    | Step(i: nat, ext: Outcome)

  /** A lecture right after `create_lecture`: no version yet, its generate job queued. */
  const CREATED: Sys := Sys(Db(Lecture(Pending, None, 0, None, None), map[], []), [GenerateJob(0)], [])

  /** One action. An action that is not enabled leaves the system as it is. */
  function Next(s: Sys, a: Action): Sys {
    match a
    case StartEdit(content) => s.(ops := s.ops + [EditLoaded(s.db.lecture, content)])
    case StartRollback(target) => s.(ops := s.ops + [RollbackLoaded(s.db.lecture, target)])
    case RequestRefine(transform, language) =>
      if CanRefine(s.db.lecture) then s.(queue := s.queue + [RefineJob(transform, language, 0)]) else s
    case RequestRetry =>
      var decision := DecideRetry(s.db.lecture);
      if decision.DispatchJob? then s.(queue := s.queue + [decision.job]) else s
    case StartJob(k) =>
      if k < |s.queue| then
        Sys(s.db, s.queue[..k] + s.queue[k + 1..], s.ops + [LoadJob(s.db, s.queue[k])])
      else s
    case Step(i, ext) =>
      if i < |s.ops| then
        var Pair(db, op) := Advance(s.db, s.ops[i], ext);
        var retries := if op.Finished? && op.result.WillRetry? && !s.ops[i].Finished? then [op.result.job] else [];
        Sys(db, s.queue + retries, s.ops[i := op])
      else s
  }

  function Run(s: Sys, actions: seq<Action>): Sys
    decreases |actions|
  {
    if actions == [] then s else Run(Next(s, actions[0]), actions[1..])
  }
}
