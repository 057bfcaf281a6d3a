/** The same operations as methods on a shared store and a loaded lecture object. */
module PlannerService {
  import opened Common
  import opened Planner
  import opened PlannerSequential

  /** A lecture document as one request or job holds it in memory. */
  class LectureDoc {
    var status: Status
    var error: Option<Exn>
    var currentVersion: nat
    var lastTransform: Option<string>
    var lastLanguage: Option<string>

    constructor (row: Lecture)
      ensures Value() == row
    {
      status, error, currentVersion := row.status, row.error, row.currentVersion;
      lastTransform, lastLanguage := row.lastTransform, row.lastLanguage;
    }

    function Value(): Lecture
      reads this
    {
      Lecture(status, error, currentVersion, lastTransform, lastLanguage)
    }
  }

  /** The stored lecture, its version collection and the usage charged for it. */
  class Store {
    var lecture: Lecture
    var versions: map<nat, Version>
    var usage: seq<nat>

    function Value(): Db
      reads this
    {
      Db(lecture, versions, usage)
    }

    method Get() returns (doc: LectureDoc)
      ensures fresh(doc) && doc.Value() == lecture
    {
      doc := new LectureDoc(lecture);
    }

    method Save(doc: LectureDoc)
      modifies this`lecture
      ensures lecture == doc.Value()
    {
      lecture := doc.Value();
    }

    method InsertVersion(number: nat, row: Version) returns (inserted: bool)
      modifies this`versions
      ensures inserted <==> number !in old(versions)
      ensures versions == if inserted then old(versions)[number := row] else old(versions)
    {
      inserted := number !in versions;
      if inserted {
        versions := versions[number := row];
      }
    }
  }

  /** Inserts `row` one above the snapshot's current version and makes it live. */
  method AppendVersion(store: Store, doc: LectureDoc, row: Version) returns (result: Result)
    modifies store`versions, store`lecture, doc
    ensures var number := old(doc.currentVersion) + 1;
            if number in old(store.versions) then
              result == DuplicateError && store.Value() == old(store.Value()) && doc.Value() == old(doc.Value())
            else
              && result == Appended(number) && doc.Value() == Live(old(doc.Value()), number)
              && store.Value() == WithVersion(old(store.Value()), number, row).(lecture := doc.Value())
  {
    var number := doc.currentVersion + 1;
    var inserted := store.InsertVersion(number, row);
    if !inserted {
      return DuplicateError;
    }
    doc.currentVersion := number;
    doc.status := Ready;
    doc.error := None;
    store.Save(doc);
    result := Appended(number);
  }

  method ManualEditLecture(store: Store, doc: LectureDoc, content: string) returns (result: Result)
    modifies store`versions, store`lecture, doc
    ensures Pair(store.Value(), result) == Finish(old(store.Value()), EditLoaded(old(doc.Value()), content), NO_CALL)
    ensures doc.Value() == if result.Appended? then store.lecture else old(doc.Value())
  {
    ghost var db, snapshot := store.Value(), doc.Value();
    result := AppendVersion(store, doc, Version(content, ManualEdit));
    if result.Appended? {
      SavingFinishes(WithVersion(db, result.version, Version(content, ManualEdit)), Live(snapshot, result.version),
                     result, NO_CALL);
    }
  }

  method RollbackLectureVersion(store: Store, doc: LectureDoc, version: int) returns (result: Result)
    modifies store`versions, store`lecture, doc
    ensures Pair(store.Value(), result)
            == Finish(old(store.Value()), RollbackLoaded(old(doc.Value()), version), NO_CALL)
    ensures doc.Value() == if result.Appended? then store.lecture else old(doc.Value())
  {
    ghost var db, snapshot := store.Value(), doc.Value();
    if version < 0 || version as nat !in store.versions {
      return NotFound;
    }
    var target := store.versions[version as nat];
    result := AppendVersion(store, doc, Version(target.content, RolledBack));
    ghost var found := RollbackFound(snapshot, version, target.content);
    assert Finish(db, RollbackLoaded(snapshot, version), NO_CALL) == Finish(db, found, NO_CALL);
    if result.Appended? {
      SavingFinishes(WithVersion(db, result.version, Version(target.content, RolledBack)),
                     Live(snapshot, result.version), result, NO_CALL);
    }
  }

  method MarkFailed(store: Store, doc: LectureDoc, e: Exn)
    modifies store`lecture, doc
    ensures doc.Value() == Marked(old(doc.Value()), e) && store.lecture == doc.Value()
  {
    doc.status := Failed;
    doc.error := Some(e);
    store.Save(doc);
  }

  /** The `except` clauses: raise a transient error for the Celery wrapper, or mark the lecture failed. */
  method HandleError(store: Store, doc: LectureDoc, job: Job, e: Exn) returns (result: Result)
    modifies store`lecture, doc
    ensures Pair(store.Value(), result) == Finish(old(store.Value()), OnError(old(doc.Value()), job, e), NO_CALL)
  {
    ghost var db, snapshot := store.Value(), doc.Value();
    ErrorFinishes(db, snapshot, job, e, NO_CALL);
    if Transient(e) && job.attempt < MAX_RETRIES {
      return WillRetry(Retried(job));
    }
    MarkFailed(store, doc, e);
    result := MarkedFailed(e);
  }

  method GenerateLecture(store: Store, attempt: nat, ext: Outcome) returns (result: Result)
    modifies store
    ensures Pair(store.Value(), result) ==
            Finish(old(store.Value()), LoadJob(old(store.Value()), GenerateJob(attempt)), ext)
  {
    ghost var db := store.Value();
    var doc := store.Get();
    doc.status := Generating;
    store.Save(doc);
    ghost var db1, running := store.Value(), doc.Value();
    assert Finish(db, LoadJob(db, GenerateJob(attempt)), ext) == Finish(db1, GenerateCalling(running, attempt), ext);
    match ext {
      case Raised(e) =>
        ErrorFinishes(db1, running, GenerateJob(attempt), e, ext);
        ErrorFinishes(db1, running, GenerateJob(attempt), e, NO_CALL);
        assert Finish(db1, GenerateCalling(running, attempt), ext)
               == Finish(db1, OnError(running, GenerateJob(attempt), e), ext);
        result := HandleError(store, doc, GenerateJob(attempt), e);
      case Produced(content, tokens) =>
        store.usage := store.usage + [tokens];
        ghost var db2 := store.Value();
        assert Finish(db1, GenerateCalling(running, attempt), ext)
               == Finish(db2, GenerateInserting(running, content), ext);
        var inserted := store.InsertVersion(1, Version(content, AiGenerated));
        if inserted {
          doc.status := Ready;
          doc.currentVersion := 1;
          doc.error := None;
          store.Save(doc);
          result := Appended(1);
          SavingFinishes(WithVersion(db2, 1, Version(content, AiGenerated)), Live(running, 1), result, ext);
        } else {
          MarkFailed(store, doc, DuplicateKey);
          result := MarkedFailed(DuplicateKey);
          SavingFinishes(db2, Marked(running, DuplicateKey), result, ext);
        }
    }
  }

  method RefineLecture(store: Store, transform: string, language: Option<string>, attempt: nat, ext: Outcome)
    returns (result: Result)
    modifies store
    ensures Pair(store.Value(), result) ==
            Finish(old(store.Value()), LoadJob(old(store.Value()), RefineJob(transform, language, attempt)), ext)
  {
    ghost var db := store.Value();
    var job := RefineJob(transform, language, attempt);
    var doc := store.Get();
    doc.lastTransform := Some(transform);
    doc.lastLanguage := language;
    doc.status := Generating;
    store.Save(doc);
    ghost var db1, running := store.Value(), doc.Value();
    assert Finish(db, LoadJob(db, job), ext) == Finish(db1, RefineReading(running, job), ext);
    if doc.currentVersion !in store.versions {
      MarkFailed(store, doc, NoVersionToRefine);
      result := MarkedFailed(NoVersionToRefine);
      SavingFinishes(db1, Marked(running, NoVersionToRefine), result, ext);
      return;
    }
    assert Finish(db1, RefineReading(running, job), ext) == Finish(db1, RefineCalling(running, job), ext);
    match ext {
      case Raised(e) =>
        ErrorFinishes(db1, running, job, e, ext);
        ErrorFinishes(db1, running, job, e, NO_CALL);
        assert Finish(db1, RefineCalling(running, job), ext) == Finish(db1, OnError(running, job, e), ext);
        result := HandleError(store, doc, job, e);
      case Produced(content, tokens) =>
        store.usage := store.usage + [tokens];
        ghost var db2 := store.Value();
        var number := NextVersionNumber(store.versions);
        assert Finish(db1, RefineCalling(running, job), ext) == Finish(db2, RefineNumbering(running, content), ext);
        assert Finish(db2, RefineNumbering(running, content), ext)
               == Finish(db2, RefineInserting(running, content, number), ext);
        var inserted := store.InsertVersion(number, Version(content, AiRefined));
        assert inserted;
        doc.status := Ready;
        doc.currentVersion := number;
        doc.error := None;
        store.Save(doc);
        result := Appended(number);
        SavingFinishes(WithVersion(db2, number, Version(content, AiRefined)), Live(running, number), result, ext);
    }
  }
}
