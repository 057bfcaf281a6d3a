/** One edit against one refine attempt: exactly which interleavings leave the lecture behind its own history. */
module PlannerRefineRace {
  import opened Common
  import opened Planner
  import opened PlannerSafety
  import opened PlannerSequential
  import opened PlannerHazards
  import opened PlannerRace

  /** A lecture in step, with nothing in flight, whose next job is a refine attempt. */
  ghost predicate RefineWaits(s: Sys) {
    && InStep(s.db) && s.queue != [] && s.queue[0].RefineJob?
    && forall i :: 0 <= i < |s.ops| ==> s.ops[i].Finished?
  }

  function StartOf(s: Sys): Race {
    Race(s, None, None)
  }

  /** The next turn is the refine attempt's save of its new version, with the edit's version stored and its row not yet
      saved. */
  predicate SavesBetween(r: Race, turn: Turn) {
    var edit, job := OpAt(r, r.edit), OpAt(r, r.job);
    && turn == JobTurn && job.Some? && job.value.Saving? && job.value.result.Appended?
    && edit.Some? && edit.value.Saving?
  }

  /** The refine attempt has saved its new version between the edit's insert and the edit's save. */
  predicate Outrun(start: Race, turns: seq<Turn>, content: string, ext: Outcome)
    decreases |turns|
  {
    turns != [] &&
    var before, last := turns[..|turns| - 1], turns[|turns| - 1];
    Outrun(start, before, content, ext) || SavesBetween(After(start, before, content, ext), last)
  }

  ghost predicate OthersRest(r: Race, start: Sys) {
    && |start.ops| <= |r.sys.ops| == |start.ops| + (if r.edit.Some? then 1 else 0) + (if r.job.Some? then 1 else 0)
    && (r.edit.Some? ==> |start.ops| <= r.edit.value < |r.sys.ops|)
    && (r.job.Some? ==> |start.ops| <= r.job.value < |r.sys.ops|)
    && (r.edit.Some? && r.job.Some? ==> r.edit != r.job)
    && (r.job.None? ==> r.sys.queue == start.queue)
  }

  /** The number of the version stored by an operation, 0 if there is none. */
  function Number(op: Option<Op>): nat {
    if op.Some? && (op.value.Saving? || op.value.Finished?) && op.value.result.Appended? then op.value.result.version
    else 0
  }

  predicate Ended(op: Option<Op>) {
    op.Some? && op.value.Finished?
  }

  /** What the edit holds when the lecture started with `n` versions. */
  ghost predicate EditKnows(edit: Op, n: nat, job: Option<Op>) {
    match edit
    case EditLoaded(doc, _) => doc.currentVersion == n || (doc.currentVersion == n + 1 == Number(job) && Ended(job))
    case Saving(doc, Appended(v)) => doc.currentVersion == v && Numbered(v, n, job)
    case Finished(Appended(v)) => Numbered(v, n, job)
    case Finished(DuplicateError) => Number(job) > 0
    case _ => false
  }

  /** The edit's version comes first, or after the whole refine attempt. */
  ghost predicate Numbered(v: nat, n: nat, job: Option<Op>) {
    (v == n + 1 && Number(job) != n + 1) || (v == n + 2 && Number(job) == n + 1 && Ended(job))
  }

  /** What the refine attempt holds: its snapshot says `current`. */
  ghost predicate JobKnows(job: Op, current: nat, n: nat, edit: Option<Op>) {
    match job
    case RefineLoaded(doc, j) => doc.currentVersion == current && j.RefineJob?
    case RefineReading(doc, j) => doc.currentVersion == current && j.RefineJob?
    case RefineCalling(doc, j) => doc.currentVersion == current && j.RefineJob?
    case RefineNumbering(doc, _) => doc.currentVersion == current
    case RefineInserting(doc, _, number) =>
      doc.currentVersion == current && (number == n + 1 || (number == n + 2 && Number(edit) == n + 1))
    case Saving(doc, MarkedFailed(_)) => doc.currentVersion == current
    case Saving(doc, Appended(v)) => doc.currentVersion == v && (v == n + 1 || (v == n + 2 && Number(edit) == n + 1))
    case Finished(Appended(v)) => v == n + 1 || (v == n + 2 && Number(edit) == n + 1)
    case Finished(MarkedFailed(_)) => true
    case Finished(WillRetry(_)) => true
    case _ => false
  }

  /** The current version of the row, given what has happened. */
  ghost predicate RowSays(current: nat, n: nat, edit: Option<Op>, job: Option<Op>, overwritten: bool, outrun: bool) {
    var editSaved, jobSaved := Number(edit) > 0 && Ended(edit), Number(job) > 0 && Ended(job);
    current == if jobSaved && editSaved then (if outrun then n + 1 else n + 2)
               else if jobSaved then Number(job)
               else if editSaved then (if overwritten then n else n + 1)
               else n
  }

  ghost predicate RefineInv(r: Race, start: Sys, overlapped: bool, overwritten: bool, outrun: bool) {
    var edit, job, n := OpAt(r, r.edit), OpAt(r, r.job), |start.db.versions|;
    var editSaved := Number(edit) > 0 && Ended(edit);
    && OthersRest(r, start) && Contiguous(r.sys.db.versions)
    && |r.sys.db.versions| == n + (if Number(edit) > 0 then 1 else 0) + (if Number(job) > 0 then 1 else 0)
    && (edit.Some? ==> EditKnows(edit.value, n, job))
    && (job.Some? ==> JobKnows(job.value, if editSaved && !overlapped then n + 1 else n, n, edit))
    && (overlapped ==> editSaved && job.Some?) && (overwritten ==> overlapped)
    && (outrun ==> Number(edit) == n + 1 && Number(job) == n + 2 && Ended(job))
    && (Number(edit) > 0 && !editSaved && Number(job) > 0 && Ended(job) ==> (outrun <==> Number(edit) == n + 1))
    && RowSays(r.sys.db.lecture.currentVersion, n, edit, job, overwritten, outrun)
  }

  lemma EditStarts(r: Race, start: Sys, content: string, ext: Outcome, overlapped: bool, overwritten: bool,
                   outrun: bool)
    requires RefineWaits(start) && RefineInv(r, start, overlapped, overwritten, outrun)
    requires r.edit.None?
    ensures RefineInv(Move(r, EditTurn, content, ext), start, overlapped, overwritten, outrun)
  {
  }

  lemma EditStores(r: Race, start: Sys, content: string, ext: Outcome, overlapped: bool, overwritten: bool,
                   outrun: bool)
    requires RefineWaits(start) && RefineInv(r, start, overlapped, overwritten, outrun)
    requires r.edit.Some? && OpAt(r, r.edit).value.EditLoaded?
    ensures RefineInv(Move(r, EditTurn, content, ext), start, overlapped, overwritten, outrun)
  {
  }

  lemma EditSaved(r: Race, start: Sys, content: string, ext: Outcome, overlapped: bool, overwritten: bool, outrun: bool)
    requires RefineWaits(start) && RefineInv(r, start, overlapped, overwritten, outrun)
    requires r.edit.Some? && !OpAt(r, r.edit).value.EditLoaded?
    ensures RefineInv(Move(r, EditTurn, content, ext), start,
                      overlapped || EditSavesLate(r, EditTurn), overwritten, outrun)
  {
  }

  lemma EditGoesOn(r: Race, start: Sys, content: string, ext: Outcome, overlapped: bool, overwritten: bool,
                   outrun: bool)
    requires RefineWaits(start) && RefineInv(r, start, overlapped, overwritten, outrun)
    ensures RefineInv(Move(r, EditTurn, content, ext), start,
                      overlapped || EditSavesLate(r, EditTurn), overwritten, outrun)
  {
    if r.edit.None? {
      EditStarts(r, start, content, ext, overlapped, overwritten, outrun);
    } else if OpAt(r, r.edit).value.EditLoaded? {
      EditStores(r, start, content, ext, overlapped, overwritten, outrun);
    } else {
      EditSaved(r, start, content, ext, overlapped, overwritten, outrun);
    }
  }

  lemma JobStartsLate(r: Race, start: Sys, content: string, ext: Outcome, overlapped: bool, overwritten: bool,
                      outrun: bool)
    requires RefineWaits(start) && RefineInv(r, start, overlapped, overwritten, outrun)
    requires r.job.None?
    ensures RefineInv(Move(r, JobTurn, content, ext), start, overlapped, overwritten, outrun)
  {
  }

  lemma JobStores(r: Race, start: Sys, content: string, ext: Outcome, overlapped: bool, overwritten: bool, outrun: bool)
    requires RefineWaits(start) && RefineInv(r, start, overlapped, overwritten, outrun)
    requires r.job.Some? && OpAt(r, r.job).value.RefineInserting?
    ensures RefineInv(Move(r, JobTurn, content, ext), start, overlapped, overwritten, outrun)
  {
  }

  lemma JobSaved(r: Race, start: Sys, content: string, ext: Outcome, overlapped: bool, overwritten: bool, outrun: bool)
    requires RefineWaits(start) && RefineInv(r, start, overlapped, overwritten, outrun)
    requires r.job.Some? && OpAt(r, r.job).value.Saving?
    ensures RefineInv(Move(r, JobTurn, content, ext), start, overlapped, overwritten || overlapped,
                      outrun || SavesBetween(r, JobTurn))
  {
  }

  lemma JobCalls(r: Race, start: Sys, content: string, ext: Outcome, overlapped: bool, overwritten: bool, outrun: bool)
    requires RefineWaits(start) && RefineInv(r, start, overlapped, overwritten, outrun)
    requires r.job.Some? && OpAt(r, r.job).value.RefineCalling?
    ensures RefineInv(Move(r, JobTurn, content, ext), start, overlapped, overwritten, outrun)
  {
  }

  lemma JobShows(r: Race, start: Sys, content: string, ext: Outcome, overlapped: bool, overwritten: bool, outrun: bool)
    requires RefineWaits(start) && RefineInv(r, start, overlapped, overwritten, outrun)
    requires r.job.Some? && OpAt(r, r.job).value.RefineLoaded?
    ensures RefineInv(Move(r, JobTurn, content, ext), start, overlapped, overwritten || overlapped, outrun)
  {
  }

  lemma JobReads(r: Race, start: Sys, content: string, ext: Outcome, overlapped: bool, overwritten: bool, outrun: bool)
    requires RefineWaits(start) && RefineInv(r, start, overlapped, overwritten, outrun)
    requires r.job.Some? && var job := OpAt(r, r.job).value; job.RefineReading? || job.RefineNumbering? || job.Finished?
    ensures RefineInv(Move(r, JobTurn, content, ext), start, overlapped, overwritten, outrun)
  {
  }

  lemma JobGoesOn(r: Race, start: Sys, content: string, ext: Outcome, overlapped: bool, overwritten: bool, outrun: bool)
    requires RefineWaits(start) && RefineInv(r, start, overlapped, overwritten, outrun)
    ensures RefineInv(Move(r, JobTurn, content, ext), start, overlapped,
                      overwritten || (overlapped && JobSaves(r, JobTurn)), outrun || SavesBetween(r, JobTurn))
  {
    JobIsNoGenerate(r, start, overlapped, overwritten, outrun);
    if r.job.None? {
      JobStartsLate(r, start, content, ext, overlapped, overwritten, outrun);
    } else if OpAt(r, r.job).value.Saving? {
      JobSaved(r, start, content, ext, overlapped, overwritten, outrun);
    } else if OpAt(r, r.job).value.RefineInserting? {
      JobStores(r, start, content, ext, overlapped, overwritten, outrun);
    } else if OpAt(r, r.job).value.RefineCalling? {
      JobCalls(r, start, content, ext, overlapped, overwritten, outrun);
    } else if OpAt(r, r.job).value.RefineLoaded? {
      JobShows(r, start, content, ext, overlapped, overwritten, outrun);
    } else {
      JobReads(r, start, content, ext, overlapped, overwritten, outrun);
    }
  }

  lemma JobIsNoGenerate(r: Race, start: Sys, overlapped: bool, overwritten: bool, outrun: bool)
    requires RefineInv(r, start, overlapped, overwritten, outrun)
    ensures OpAt(r, r.job).Some? ==> !OpAt(r, r.job).value.GenerateLoaded?
  {
  }

  lemma TurnGoesOn(r: Race, start: Sys, turn: Turn, content: string, ext: Outcome,
                   overlapped: bool, overwritten: bool, outrun: bool)
    requires RefineWaits(start) && RefineInv(r, start, overlapped, overwritten, outrun)
    ensures RefineInv(Move(r, turn, content, ext), start, overlapped || EditSavesLate(r, turn),
                      overwritten || (overlapped && JobSaves(r, turn)), outrun || SavesBetween(r, turn))
  {
    match turn
    case EditTurn => EditGoesOn(r, start, content, ext, overlapped, overwritten, outrun);
    case JobTurn => JobGoesOn(r, start, content, ext, overlapped, overwritten, outrun);
  }

  lemma {:induction false} RefineRaceKeeps(start: Sys, turns: seq<Turn>, content: string, ext: Outcome)
    requires RefineWaits(start)
    ensures var line := StartOf(start);
            RefineInv(After(line, turns, content, ext), start, Overlapped(line, turns, content, ext),
                      Overwritten(line, turns, content, ext), Outrun(line, turns, content, ext))
    decreases |turns|
  {
    var line := StartOf(start);
    if turns == [] {
      RaceBegins(start);
    } else {
      var before := turns[..|turns| - 1];
      RefineRaceKeeps(start, before, content, ext);
      TurnGoesOn(After(line, before, content, ext), start, turns[|turns| - 1], content, ext,
                 Overlapped(line, before, content, ext),
                 Overwritten(line, before, content, ext), Outrun(line, before, content, ext));
    }
  }

  lemma RaceBegins(start: Sys)
    requires RefineWaits(start)
    ensures RefineInv(StartOf(start), start, false, false, false)
  {
  }

  /** An edit and a refine attempt on a lecture in step, their steps interleaved in any way. When the attempt stores a
      version, the lecture ends in step unless that version was saved between the edit's insert and the edit's save.
      When it does not, the lecture ends in step unless the attempt loaded the lecture before the edit was saved and
      saved its snapshot after. */
  lemma RaceEndsInStepIff(start: Sys, turns: seq<Turn>, content: string, ext: Outcome)
    requires RefineWaits(start)
    requires var r := After(StartOf(start), turns, content, ext); Ended(OpAt(r, r.edit)) && Ended(OpAt(r, r.job))
    ensures var line := StartOf(start);
            var r := After(line, turns, content, ext);
            && (InStep(r.sys.db) <==> if OpAt(r, r.job).value.result.Appended? then !Outrun(line, turns, content, ext)
                                      else !Overwritten(line, turns, content, ext))
            && (!InStep(r.sys.db) ==> IsBehind(r.sys.db))
  {
    RefineRaceKeeps(start, turns, content, ext);
  }

  // ---- Both conditions occur. ----

  lemma AfterSnoc(start: Race, turns: seq<Turn>, turn: Turn, content: string, ext: Outcome)
    ensures After(start, turns + [turn], content, ext) == Move(After(start, turns, content, ext), turn, content, ext)
  {
    assert (turns + [turn])[..|turns|] == turns;
  }

  lemma FirstVersionIsReachable() returns (actions: seq<Action>)
    ensures var s := Run(CREATED, actions);
            s == Sys(Db(Lecture(Ready, None, 1, None, None), map[1 := Version("ai", AiGenerated)], [7]), [],
                     [Finished(Appended(1))])
  {
    var first := [StartJob(0), Step(0, NO_CALL), Step(0, Produced("ai", 7))];
    RunThree(CREATED, first[0], first[1], first[2]);
    var s := Run(CREATED, first);
    assert s.ops == [GenerateInserting(Lecture(Generating, None, 0, None, None), "ai")] && s.queue == [];
    RunSnoc(CREATED, first, Step(0, NO_CALL));
    var fourth := first + [Step(0, NO_CALL)];
    assert Run(CREATED, fourth).ops == [Saving(Lecture(Ready, None, 1, None, None), Appended(1))];
    RunSnoc(CREATED, fourth, Step(0, NO_CALL));
    actions := fourth + [Step(0, NO_CALL)];
    assert Run(CREATED, actions).ops == [Finished(Appended(1))];
  }

  /** A lecture with one version and a refine attempt waiting. */
  lemma RefineWaitsIsReachable(transform: string, language: Option<string>) returns (actions: seq<Action>)
    ensures var s := Run(CREATED, actions);
            RefineWaits(s) && s.db.versions.Keys == {1} && s.queue == [RefineJob(transform, language, 0)]
  {
    var ready := FirstVersionIsReachable();
    actions := ready + [RequestRefine(transform, language)];
    RunSnoc(CREATED, ready, RequestRefine(transform, language));
  }

  /** Both operations, the edit first and the attempt second, in the midst of a race. */
  ghost predicate At(r: Race, start: Sys, db: Db, edit: Op, job: Option<Op>) {
    && r.sys.db == db && r.edit == Some(|start.ops|)
    && r.sys.ops == start.ops + [edit] + (if job.Some? then [job.value] else [])
    && (if job.Some? then r.job == Some(|start.ops| + 1) else r.job.None? && r.sys.queue == start.queue)
  }

  lemma EditTurns(r: Race, start: Sys, db: Db, edit: Op, job: Option<Op>, content: string, ext: Outcome)
    requires At(r, start, db, edit, job) && (edit.EditLoaded? || (edit.Saving? && edit.result.Appended?))
    ensures var Pair(db', edit') := Advance(db, edit, NO_CALL);
            At(Move(r, EditTurn, content, ext), start, db', edit', job)
  {
  }

  lemma JobTurns(r: Race, start: Sys, db: Db, edit: Op, job: Op, content: string, ext: Outcome)
    requires At(r, start, db, edit, Some(job))
    ensures var Pair(db', job') := Advance(db, job, ext);
            At(Move(r, JobTurn, content, ext), start, db', edit, Some(job'))
  {
  }

  lemma JobLoads(r: Race, start: Sys, db: Db, edit: Op, content: string, ext: Outcome)
    requires start.queue != [] && At(r, start, db, edit, None)
    ensures At(Move(r, JobTurn, content, ext), start, db, edit, Some(LoadJob(db, start.queue[0])))
  {
  }

  lemma EditLoads(start: Sys, content: string, ext: Outcome)
    ensures At(Move(StartOf(start), EditTurn, content, ext), start, start.db, EditLoaded(start.db.lecture, content),
               None)
  {
  }

  /** The edit has stored its version and not saved the row when the attempt loads the lecture. */
  lemma BothLoaded(start: Sys, content: string, ext: Outcome) returns (turns: seq<Turn>)
    requires RefineWaits(start)
    ensures var doc, n := start.db.lecture, |start.db.versions|;
            var db := WithVersion(start.db, n + 1, Version(content, ManualEdit));
            At(After(StartOf(start), turns, content, ext), start, db, Saving(Live(doc, n + 1), Appended(n + 1)),
               Some(RefineLoaded(doc, start.queue[0])))
  {
    var line, doc, n := StartOf(start), start.db.lecture, |start.db.versions|;
    var db := WithVersion(start.db, n + 1, Version(content, ManualEdit));
    var edit, saving := EditLoaded(doc, content), Saving(Live(doc, n + 1), Appended(n + 1));
    turns := [];
    AfterSnoc(line, turns, EditTurn, content, ext);
    EditLoads(start, content, ext);
    turns := turns + [EditTurn];
    AfterSnoc(line, turns, EditTurn, content, ext);
    EditTurns(After(line, turns, content, ext), start, start.db, edit, None, content, ext);
    assert Advance(start.db, edit, NO_CALL) == Pair(db, saving);
    turns := turns + [EditTurn];
    AfterSnoc(line, turns, JobTurn, content, ext);
    JobLoads(After(line, turns, content, ext), start, db, saving, content, ext);
    turns := turns + [JobTurn];
  }

  lemma JobTakesTurn(start: Sys, turns: seq<Turn>, db: Db, edit: Op, job: Op, db': Db, job': Op, content: string,
                     ext: Outcome)
    returns (more: seq<Turn>)
    requires At(After(StartOf(start), turns, content, ext), start, db, edit, Some(job))
             && Advance(db, job, ext) == Pair(db', job')
    ensures At(After(StartOf(start), more, content, ext), start, db', edit, Some(job'))
  {
    AfterSnoc(StartOf(start), turns, JobTurn, content, ext);
    JobTurns(After(StartOf(start), turns, content, ext), start, db, edit, job, content, ext);
    more := turns + [JobTurn];
  }

  lemma EditTakesTurn(start: Sys, turns: seq<Turn>, db: Db, edit: Op, job: Op, db': Db, edit': Op, content: string,
                      ext: Outcome)
    returns (more: seq<Turn>)
    requires At(After(StartOf(start), turns, content, ext), start, db, edit, Some(job))
    requires edit.Saving? && edit.result.Appended? && Advance(db, edit, NO_CALL) == Pair(db', edit')
    ensures At(After(StartOf(start), more, content, ext), start, db', edit', Some(job))
  {
    AfterSnoc(StartOf(start), turns, EditTurn, content, ext);
    EditTurns(After(StartOf(start), turns, content, ext), start, db, edit, Some(job), content, ext);
    more := turns + [EditTurn];
  }

  /** The edit's version stored, the attempt's snapshot saved, the row of the edit not yet. */
  function ShownDb(start: Sys, content: string): Db
    requires start.queue != []
  {
    WithVersion(start.db, |start.db.versions| + 1,
                Version(content, ManualEdit)).(lecture := RefineStarted(start.db.lecture, start.queue[0]))
  }

  lemma RefineCalls(start: Sys, content: string, ext: Outcome) returns (turns: seq<Turn>)
    requires RefineWaits(start) && start.db.versions != map[]
    ensures var doc, job, number := start.db.lecture, start.queue[0], |start.db.versions| + 1;
            At(After(StartOf(start), turns, content, ext), start, ShownDb(start, content),
               Saving(Live(doc, number), Appended(number)),
               Some(RefineCalling(RefineStarted(doc, job), job)))
    ensures Contiguous(ShownDb(start, content).versions)
            && |ShownDb(start, content).versions| == |start.db.versions| + 1
  {
    var doc, n := start.db.lecture, |start.db.versions|;
    var db := WithVersion(start.db, n + 1, Version(content, ManualEdit));
    var edit, job := Saving(Live(doc, n + 1), Appended(n + 1)), start.queue[0];
    turns := BothLoaded(start, content, ext);
    var doc', shown := RefineStarted(doc, job), ShownDb(start, content);
    turns := JobTakesTurn(start, turns, db, edit, RefineLoaded(doc, job), shown, RefineReading(doc', job), content,
                          ext);
    assert n in start.db.versions && n != n + 1;
    turns := JobTakesTurn(start, turns, shown, edit, RefineReading(doc', job), shown, RefineCalling(doc', job),
                          content, ext);
    AppendKeepsContiguous(start.db.versions, n + 1, Version(content, ManualEdit));
  }

  /** A refine attempt that succeeds between the insert and the save of an edit: the edit's save puts the row back by
      one version. */
  lemma SuccessfulRefineIsLost(start: Sys, content: string, refined: string, tokens: nat) returns (turns: seq<Turn>)
    requires RefineWaits(start) && start.db.versions != map[]
    ensures var r := After(StartOf(start), turns, content, Produced(refined, tokens));
            && OpAt(r, r.edit) == Some(Finished(Appended(|start.db.versions| + 1)))
            && OpAt(r, r.job) == Some(Finished(Appended(|start.db.versions| + 2))) && IsBehind(r.sys.db)
  {
    var ext, doc, n := Produced(refined, tokens), start.db.lecture, |start.db.versions|;
    var job, shown := start.queue[0], ShownDb(start, content);
    turns := RefineCalls(start, content, ext);
    var edit := Saving(Live(doc, n + 1), Appended(n + 1));
    turns := RefineSucceeds(start, turns, shown, edit, RefineStarted(doc, job), job, content, refined, tokens);
    var saved := RefinedDb(shown, RefineStarted(doc, job), refined, tokens);
    turns := EditTakesTurn(start, turns, saved, edit, Finished(Appended(n + 2)), saved.(lecture := Live(doc, n + 1)),
                           Finished(Appended(n + 1)), content, ext);
  }

  /** The lecture after a refine attempt has charged, stored and saved. */
  function RefinedDb(db: Db, doc: Lecture, refined: string, tokens: nat): Db {
    var number := |db.versions| + 1;
    WithVersion(db.(usage := db.usage + [tokens]), number, Version(refined, AiRefined)).(lecture := Live(doc, number))
  }

  lemma RefineNumbers(start: Sys, before: seq<Turn>, db: Db, edit: Op, doc: Lecture, job: Job, content: string,
                      refined: string, tokens: nat) returns (turns: seq<Turn>)
    requires Contiguous(db.versions)
    requires At(After(StartOf(start), before, content, Produced(refined, tokens)), start, db, edit,
                Some(RefineCalling(doc, job)))
    ensures At(After(StartOf(start), turns, content, Produced(refined, tokens)), start,
               db.(usage := db.usage + [tokens]), edit,
               Some(RefineInserting(doc, refined, |db.versions| + 1)))
  {
    var ext := Produced(refined, tokens);
    var charged := db.(usage := db.usage + [tokens]);
    turns := JobTakesTurn(start, before, db, edit, RefineCalling(doc, job), charged, RefineNumbering(doc, refined),
                          content, ext);
    assert NextVersionNumber(charged.versions) == |db.versions| + 1;
    turns := JobTakesTurn(start, turns, charged, edit, RefineNumbering(doc, refined), charged,
                          RefineInserting(doc, refined, |db.versions| + 1), content, ext);
  }

  lemma RefineSucceeds(start: Sys, before: seq<Turn>, db: Db, edit: Op, doc: Lecture, job: Job, content: string,
                       refined: string, tokens: nat) returns (turns: seq<Turn>)
    requires Contiguous(db.versions)
    requires At(After(StartOf(start), before, content, Produced(refined, tokens)), start, db, edit,
                Some(RefineCalling(doc, job)))
    ensures var number, db' := |db.versions| + 1, RefinedDb(db, doc, refined, tokens);
            && At(After(StartOf(start), turns, content, Produced(refined, tokens)), start, db', edit,
                  Some(Finished(Appended(number))))
            && Contiguous(db'.versions) && |db'.versions| == number
  {
    var ext, number := Produced(refined, tokens), |db.versions| + 1;
    turns := RefineNumbers(start, before, db, edit, doc, job, content, refined, tokens);
    var charged := db.(usage := db.usage + [tokens]);
    var stored := WithVersion(charged, number, Version(refined, AiRefined));
    var saving := Saving(Live(doc, number), Appended(number));
    turns := JobTakesTurn(start, turns, charged, edit, RefineInserting(doc, refined, number), stored, saving, content,
                          ext);
    turns := JobTakesTurn(start, turns, stored, edit, saving, RefinedDb(db, doc, refined, tokens),
                          Finished(Appended(number)),
                          content, ext);
    AppendKeepsContiguous(db.versions, number, Version(refined, AiRefined));
  }

  /** A refine attempt that only asks for a retry, and has saved its snapshot once, after the edit. */
  lemma RetriedRefineLosesEdit(start: Sys, content: string) returns (turns: seq<Turn>)
    requires RefineWaits(start) && start.db.versions != map[] && start.queue[0].attempt < MAX_RETRIES
    ensures var r := After(StartOf(start), turns, content, Raised(LlmProxyError));
            && OpAt(r, r.edit) == Some(Finished(Appended(|start.db.versions| + 1)))
            && OpAt(r, r.job) == Some(Finished(WillRetry(Retried(start.queue[0])))) && IsBehind(r.sys.db)
  {
    var ext, doc, n := Raised(LlmProxyError), start.db.lecture, |start.db.versions|;
    var db := WithVersion(start.db, n + 1, Version(content, ManualEdit));
    var edit, job := Saving(Live(doc, n + 1), Appended(n + 1)), start.queue[0];
    turns := BothLoaded(start, content, ext);
    var edited := db.(lecture := Live(doc, n + 1));
    var loaded := RefineLoaded(doc, job);
    turns := EditTakesTurn(start, turns, db, edit, loaded, edited, Finished(Appended(n + 1)), content, ext);
    var doc' := RefineStarted(doc, job);
    var shown := edited.(lecture := doc');
    var done := Finished(Appended(n + 1));
    turns := JobTakesTurn(start, turns, edited, done, loaded, shown, RefineReading(doc', job), content, ext);
    assert n in start.db.versions && n != n + 1;
    turns := JobTakesTurn(start, turns, shown, done, RefineReading(doc', job), shown, RefineCalling(doc', job),
                          content, ext);
    turns := JobTakesTurn(start, turns, shown, done, RefineCalling(doc', job), shown,
                          Finished(WillRetry(Retried(job))), content, ext);
    AppendKeepsContiguous(start.db.versions, n + 1, Version(content, ManualEdit));
  }

  /** Both happen to lectures that real runs produce. */
  lemma LosingRefineIsReachable(content: string, refined: string, tokens: nat) returns (actions: seq<Action>)
    ensures IsBehind(Run(CREATED, actions).db) && |Run(CREATED, actions).db.versions| == 3
  {
    var before := RefineWaitsIsReachable("shorter", None);
    var start := Run(CREATED, before);
    assert |start.db.versions| == 1 by {
      assert 2 !in start.db.versions && 1 in start.db.versions;
    }
    var turns := SuccessfulRefineIsLost(start, content, refined, tokens);
    var ext := Produced(refined, tokens);
    RefineRaceKeeps(start, turns, content, ext);
    var after := RaceIsRun(StartOf(start), turns, content, ext);
    RunSplits(CREATED, before, after);
    actions := before + after;
  }
}
