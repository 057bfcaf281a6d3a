/** One edit against one job: exactly which interleavings of their steps do damage. */
module PlannerRace {
  import opened Common
  import opened Planner
  import opened PlannerSafety
  import opened PlannerSequential
  import opened PlannerHazards

  /** Two operations on a new lecture, in any order of their steps: one manual edit and one attempt of the generate
      job. */
  datatype Turn = EditTurn | JobTurn

  /** `edit` and `job` are their places in the system's list of operations, once started. */
  datatype Race = Race(sys: Sys, edit: Option<nat>, job: Option<nat>)

  const START_LINE: Race := Race(CREATED, None, None)

  function OpAt(r: Race, i: Option<nat>): Option<Op> {
    if i.Some? && i.value < |r.sys.ops| then Some(r.sys.ops[i.value]) else None
  }

  function ActionOf(r: Race, turn: Turn, content: string, ext: Outcome): Action {
    match turn
    case EditTurn => if r.edit.None? then StartEdit(content) else Step(r.edit.value, NO_CALL)
    case JobTurn => if r.job.None? then StartJob(0) else Step(r.job.value, ext)
  }

  function Move(r: Race, turn: Turn, content: string, ext: Outcome): Race {
    var sys := Next(r.sys, ActionOf(r, turn, content, ext));
    match turn
    case EditTurn => Race(sys, if r.edit.None? then Some(|r.sys.ops|) else r.edit, r.job)
    case JobTurn => Race(sys, r.edit, if r.job.None? then Some(|r.sys.ops|) else r.job)
  }

  function After(start: Race, turns: seq<Turn>, content: string, ext: Outcome): Race
    decreases |turns|
  {
    if turns == [] then start
    else Move(After(start, turns[..|turns| - 1], content, ext), turns[|turns| - 1], content, ext)
  }

  /** The next turn is the edit's save, with the job loaded before it. */
  predicate EditSavesLate(r: Race, turn: Turn) {
    var edit := OpAt(r, r.edit);
    turn == EditTurn && edit.Some? && edit.value.Saving? && r.job.Some?
  }

  /** The next turn is one of the job's two saves of its snapshot. */
  predicate JobSaves(r: Race, turn: Turn) {
    var job := OpAt(r, r.job);
    turn == JobTurn && job.Some? && (job.value.GenerateLoaded? || job.value.RefineLoaded? || job.value.Saving?)
  }

  /** The edit has been saved after the job loaded the lecture. */
  predicate Overlapped(start: Race, turns: seq<Turn>, content: string, ext: Outcome)
    decreases |turns|
  {
    turns != [] &&
    var before, last := turns[..|turns| - 1], turns[|turns| - 1];
    Overlapped(start, before, content, ext) || EditSavesLate(After(start, before, content, ext), last)
  }

  /** ... and the job has saved its snapshot after that. */
  predicate Overwritten(start: Race, turns: seq<Turn>, content: string, ext: Outcome)
    decreases |turns|
  {
    turns != [] &&
    var before, last := turns[..|turns| - 1], turns[|turns| - 1];
    || Overwritten(start, before, content, ext)
    || (Overlapped(start, before, content, ext) && JobSaves(After(start, before, content, ext), last))
  }

  /** The race is a run of the system. */
  lemma {:induction false} RaceIsRun(start: Race, turns: seq<Turn>, content: string,
                                     ext: Outcome) returns (actions: seq<Action>)
    ensures Run(start.sys, actions) == After(start, turns, content, ext).sys
    decreases |turns|
  {
    if turns == [] {
      actions := [];
    } else {
      var before := turns[..|turns| - 1];
      var earlier := RaceIsRun(start, before, content, ext);
      var action := ActionOf(After(start, before, content, ext), turns[|turns| - 1], content, ext);
      RunSnoc(start.sys, earlier, action);
      actions := earlier + [action];
    }
  }

  /** The two operations have their own places, and only generate jobs wait. */
  ghost predicate Placed(r: Race) {
    && (r.edit.Some? ==> r.edit.value < |r.sys.ops|)
    && (r.job.Some? ==> r.job.value < |r.sys.ops|)
    && (r.edit.Some? && r.job.Some? ==> r.edit != r.job)
    && |r.sys.ops| == (if r.edit.Some? then 1 else 0) + (if r.job.Some? then 1 else 0)
    && (r.job.None? ==> r.sys.queue == [GenerateJob(0)])
    && forall k :: 0 <= k < |r.sys.queue| ==> r.sys.queue[k].GenerateJob?
  }

  predicate JobStored(job: Option<Op>) {
    job.Some? && (job.value.Saving? || job.value.Finished?) && job.value.result.Appended?
  }

  predicate EditStored(edit: Option<Op>) {
    edit.Some? && (edit.value.Saving? || edit.value.Finished?) && edit.value.result.Appended?
  }

  /** The job's snapshot, while it may still be saved, says `current`. */
  ghost predicate JobHolds(job: Op, current: nat) {
    match job
    case GenerateLoaded(doc, attempt) => doc.currentVersion == current
    case GenerateCalling(doc, attempt) => doc.currentVersion == current
    case GenerateInserting(doc, _) => doc.currentVersion == current
    case Saving(doc, MarkedFailed(_)) => doc.currentVersion == current
    case Saving(doc, Appended(n)) => doc.currentVersion == 1 == n && current == 0
    case Finished(Appended(n)) => n == 1 && current == 0
    case Finished(MarkedFailed(_)) => true
    case Finished(WillRetry(next)) => next.GenerateJob?
    case _ => false
  }

  /** What the edit holds, given whether the job has stored its version and is finished. */
  ghost predicate EditHolds(edit: Op, jobStored: bool, jobFinished: bool) {
    match edit
    case EditLoaded(doc, _) => doc.currentVersion == 0 || (doc.currentVersion == 1 && jobStored && jobFinished)
    case Saving(doc, Appended(n)) => doc.currentVersion == n && if jobStored then n == 2 && jobFinished else n == 1
    case Finished(Appended(n)) => if jobStored then n == 2 && jobFinished else n == 1
    case Finished(DuplicateError) => jobStored
    case _ => false
  }

  ghost predicate RaceInv(r: Race, overlapped: bool, overwritten: bool) {
    var edit, job := OpAt(r, r.edit), OpAt(r, r.job);
    var stored, done := JobStored(job), job.Some? && job.value.Finished?;
    var editSaved := EditStored(edit) && edit.value.Finished?;
    && Placed(r) && (edit.Some? ==> EditHolds(edit.value, stored, done))
    && (job.Some? ==> JobHolds(job.value, if editSaved && !overlapped then 1 else 0))
    && r.sys.db.versions.Keys ==
       (if stored || EditStored(edit) then {1} else {}) + (if stored && EditStored(edit) then {2} else {})
    && (overlapped ==> editSaved && job.Some?) && (overwritten ==> overlapped)
    && (editSaved && job.Some? && stored ==> overlapped && !overwritten)
    && r.sys.db.lecture.currentVersion ==
       if !editSaved then (if stored && done then 1 else 0)
       else if overwritten then 0 else edit.value.result.version
  }

  lemma EditMoves(r: Race, content: string, ext: Outcome, overlapped: bool, overwritten: bool)
    requires RaceInv(r, overlapped, overwritten)
    ensures var edit := OpAt(r, r.edit);
            RaceInv(Move(r, EditTurn, content, ext),
                    overlapped || (edit.Some? && edit.value.Saving? && r.job.Some?), overwritten)
  {
  }

  lemma JobMoves(r: Race, content: string, ext: Outcome, overlapped: bool, overwritten: bool)
    requires RaceInv(r, overlapped, overwritten)
    ensures var job := OpAt(r, r.job);
            RaceInv(Move(r, JobTurn, content, ext), overlapped,
                    overwritten || (overlapped && job.Some? && (job.value.GenerateLoaded? || job.value.Saving?)))
  {
    if r.job.None? {
      JobStarts(r, content, ext, overlapped, overwritten);
    } else {
      JobSteps(r, content, ext, overlapped, overwritten);
    }
  }

  lemma JobStarts(r: Race, content: string, ext: Outcome, overlapped: bool, overwritten: bool)
    requires RaceInv(r, overlapped, overwritten) && r.job.None?
    ensures RaceInv(Move(r, JobTurn, content, ext), overlapped, overwritten)
  {
  }

  lemma JobSteps(r: Race, content: string, ext: Outcome, overlapped: bool, overwritten: bool)
    requires RaceInv(r, overlapped, overwritten) && r.job.Some?
    ensures var job := OpAt(r, r.job).value;
            RaceInv(Move(r, JobTurn, content, ext), overlapped,
                    overwritten || (overlapped && (job.GenerateLoaded? || job.Saving?)))
  {
  }

  lemma {:induction false} RaceKeeps(turns: seq<Turn>, content: string, ext: Outcome)
    ensures RaceInv(After(START_LINE, turns, content, ext), Overlapped(START_LINE, turns, content, ext),
                    Overwritten(START_LINE, turns, content, ext))
    decreases |turns|
  {
    if turns != [] {
      var before := turns[..|turns| - 1];
      RaceKeeps(before, content, ext);
      var r := After(START_LINE, before, content, ext);
      match turns[|turns| - 1]
      case EditTurn => EditMoves(r, content, ext, Overlapped(START_LINE, before, content, ext),
                                 Overwritten(START_LINE, before, content, ext));
      case JobTurn => JobMoves(r, content, ext, Overlapped(START_LINE, before, content, ext),
                               Overwritten(START_LINE, before, content, ext));
    }
  }

  /** An edit and a generate attempt on a new lecture, their steps interleaved in any way, leave it wedged if and only
      if the job loaded the lecture before the edit was saved and saved its own snapshot after that. Otherwise the row
      names the newest version. */
  lemma RaceWedgesIff(turns: seq<Turn>, content: string, ext: Outcome)
    requires var r := After(START_LINE, turns, content, ext);
             var edit, job := OpAt(r, r.edit), OpAt(r, r.job);
             edit.Some? && edit.value.Finished? && job.Some? && job.value.Finished?
    ensures Wedged(After(START_LINE, turns, content, ext).sys) <==> Overwritten(START_LINE, turns, content, ext)
    ensures !Overwritten(START_LINE, turns, content, ext) ==> InStep(After(START_LINE, turns, content, ext).sys.db)
  {
    RaceKeeps(turns, content, ext);
    var actions := RaceIsRun(START_LINE, turns, content, ext);
    EveryRunIsContiguous(actions);
    RaceEnds(After(START_LINE, turns, content, ext), Overlapped(START_LINE, turns, content, ext),
             Overwritten(START_LINE, turns, content, ext));
  }

  lemma RaceEnds(r: Race, overlapped: bool, overwritten: bool)
    requires RaceInv(r, overlapped, overwritten) && Contiguous(r.sys.db.versions)
    requires OpAt(r, r.edit).Some? && OpAt(r, r.edit).value.Finished? && OpAt(r, r.job).Some?
             && OpAt(r, r.job).value.Finished?
    ensures Wedged(r.sys) <==> overwritten
    ensures !overwritten ==> InStep(r.sys.db)
  {
    assert 1 in r.sys.db.versions;
    assert forall i :: 0 <= i < |r.sys.ops| ==> Some(i) == r.edit || Some(i) == r.job;
    var n := |r.sys.db.versions|;
    assert n in r.sys.db.versions && n + 1 !in r.sys.db.versions;
  }
}
