/** The content version of one subject and the per-process BM25 corpus cache that relies on it.

    Writers (ingest, document delete) change the chunk store and then INCR the version counter.
    Readers read the version, look in their process's cache, and on a miss fetch the corpus and store
    it under the version they read. `Next` is one atomic step of one of them. */
module ContentVersion {
  import opened Common

  datatype Chunk = Chunk(documentId: string, text: string, filename: string)

  /** Every chunk of one subject's collection, by chunk id. */
  type Corpus = map<string, Chunk>

  /** The Redis counter; 0 stands for "the key does not exist". */
  type Counter = nat

  /** `get_content_version`: an absent key reads as 1. */
  function Version(raw: Counter): nat {
    if raw == 0 then 1 else raw
  }

  function WithoutDocument(corpus: Corpus, documentId: string): Corpus {
    map id | id in corpus && corpus[id].documentId != documentId :: corpus[id]
  }

  datatype Entry = Entry(version: nat, corpus: Corpus)

  datatype Writer =
    | IngestDeleting(documentId: string, chunks: Corpus)
    | IngestUpserting(chunks: Corpus)
    | DocumentDeleting(documentId: string)
    | Bumping
    | WriterDone
  {
    /** It has changed the chunk store and its bump is still to come. */
    predicate Dirty() {
      IngestUpserting? || Bumping?
    }
  }

  /** A call of `_get_corpus_and_bm25` in process `process`. `since` is the length of the store's
      history when the version was read, and `quiet` says that no writer was dirty at that moment. */
  datatype Reader =
    | Starting(process: nat)
    | VersionRead(process: nat, version: nat, since: nat, quiet: bool)
    | Fetching(process: nat, version: nat)
    | Fetched(process: nat, version: nat, corpus: Corpus)
    | Answered(answer: Option<Corpus>)

  /** `history` lists every content the store has had, the present one last. */
  datatype State = State(raw: Counter, corpus: Corpus, history: seq<Corpus>, caches: map<nat, Entry>,
                         readers: seq<Reader>, writers: seq<Writer>)

  const EMPTY: State := State(0, map[], [map[]], map[], [], [])

  datatype Action =
    | StartReader(process: nat)
    | StartIngest(documentId: string, chunks: Corpus)
    | StartDelete(documentId: string)
    | StepReader(i: nat)
    | StepWriter(j: nat)
    | FailUpsert(j: nat)

  /** A cache hit: this process holds an entry tagged with exactly the version that was read. */
  predicate Hit(s: State, process: nat, version: nat) {
    process in s.caches && s.caches[process].version == version
  }

  function StepOfReader(s: State, r: Reader): Pair<State, Reader> {
    match r
    case Starting(process) =>
      var quiet := forall j :: 0 <= j < |s.writers| ==> !s.writers[j].Dirty();
      Pair(s, VersionRead(process, Version(s.raw), |s.history|, quiet))
    case VersionRead(process, version, _, _) =>
      Pair(s, if Hit(s, process, version) then Answered(Some(s.caches[process].corpus)) else Fetching(process, version))
    case Fetching(process, version) =>
      Pair(s, Fetched(process, version, s.corpus))
    case Fetched(process, version, corpus) =>
      if corpus == map[] then Pair(s.(caches := s.caches - {process}), Answered(None))
      else Pair(s.(caches := s.caches[process := Entry(version, corpus)]), Answered(Some(corpus)))
    case Answered(_) => Pair(s, r)
  }

  function Mutate(s: State, corpus: Corpus): State {
    s.(corpus := corpus, history := s.history + [corpus])
  }

  function StepOfWriter(s: State, w: Writer): Pair<State, Writer> {
    match w
    case IngestDeleting(documentId, chunks) =>
      Pair(Mutate(s, WithoutDocument(s.corpus, documentId)), IngestUpserting(chunks))
    case IngestUpserting(chunks) => Pair(Mutate(s, s.corpus + chunks), Bumping)
    case DocumentDeleting(documentId) => Pair(Mutate(s, WithoutDocument(s.corpus, documentId)), Bumping)
    case Bumping => Pair(s.(raw := s.raw + 1), WriterDone)
    case WriterDone => Pair(s, w)
  }

  function Next(s: State, a: Action): State {
    match a
    case StartReader(process) => s.(readers := s.readers + [Starting(process)])
    case StartIngest(documentId, chunks) => s.(writers := s.writers + [IngestDeleting(documentId, chunks)])
    case StartDelete(documentId) => s.(writers := s.writers + [DocumentDeleting(documentId)])
    case StepReader(i) =>
      if i < |s.readers| then
        var Pair(s', r) := StepOfReader(s, s.readers[i]);
        s'.(readers := s.readers[i := r])
      else s
    case StepWriter(j) =>
      if j < |s.writers| then
        var Pair(s', w) := StepOfWriter(s, s.writers[j]);
        s'.(writers := s.writers[j := w])
      else s
    case FailUpsert(j) =>
      if j < |s.writers| && s.writers[j].IngestUpserting? then s.(writers := s.writers[j := WriterDone]) else s
  }

  function Run(s: State, actions: seq<Action>): State
    decreases |actions|
  {
    if actions == [] then s else Run(Next(s, actions[0]), actions[1..])
  }
}

/** Hits are never stale: the invariant behind the corpus cache. */
module CorpusCacheSafety {
  import opened Common
  import opened ContentVersion

  /** How many writers have changed the store and not bumped yet. */
  ghost function Dirty(ws: seq<Writer>): nat {
    if ws == [] then 0 else (if ws[0].Dirty() then 1 else 0) + Dirty(ws[1..])
  }

  /** How many of those have made their last change. */
  ghost function Done(ws: seq<Writer>): nat {
    if ws == [] then 0 else (if ws[0].Bumping? then 1 else 0) + Done(ws[1..])
  }

  lemma {:induction false} CountsUpdate(ws: seq<Writer>, j: nat, w: Writer)
    requires j < |ws|
    ensures Dirty(ws[j := w]) + (if ws[j].Dirty() then 1 else 0) == Dirty(ws) + (if w.Dirty() then 1 else 0)
    ensures Done(ws[j := w]) + (if ws[j].Bumping? then 1 else 0) == Done(ws) + (if w.Bumping? then 1 else 0)
    decreases |ws|
  {
    if j == 0 {
      assert ws[j := w][1..] == ws[1..];
    } else {
      assert ws[j := w][1..] == ws[1..][j - 1 := w];
      CountsUpdate(ws[1..], j - 1, w);
    }
  }

  lemma {:induction false} CountsAppend(ws: seq<Writer>, w: Writer)
    requires !w.Dirty()
    ensures Dirty(ws + [w]) == Dirty(ws) && Done(ws + [w]) == Done(ws)
    decreases |ws|
  {
    if ws != [] {
      assert (ws + [w])[1..] == ws[1..] + [w];
      CountsAppend(ws[1..], w);
    }
  }

  lemma {:induction false} QuietMeansNoneDirty(ws: seq<Writer>)
    ensures Dirty(ws) == 0 <==> forall j :: 0 <= j < |ws| ==> !ws[j].Dirty()
    ensures Done(ws) <= Dirty(ws)
    decreases |ws|
  {
    if ws != [] {
      QuietMeansNoneDirty(ws[1..]);
      assert forall j :: 1 <= j < |ws| ==> ws[j] == ws[1..][j - 1];
      assert forall j :: 0 <= j < |ws| - 1 ==> ws[1..][j] == ws[j + 1];
    }
  }

  /** A corpus tagged with version `v` is the present one, or the version will have moved past `v`
      once every dirty writer has bumped. */
  ghost predicate TagOk(s: State, v: nat, corpus: Corpus) {
    corpus != map[] ==> v <= Version(s.raw) && (corpus == s.corpus || v < Version(s.raw + Dirty(s.writers)))
  }

  /** The content was the store's at some moment since the history had length `since`. */
  ghost predicate SeenSince(s: State, since: nat, corpus: Corpus) {
    exists h :: since - 1 <= h < |s.history| && 0 <= h && s.history[h] == corpus
  }

  /** `corpus` is cached, or held by a reader about to cache it, under version `v`. */
  ghost predicate Tagged(s: State, v: nat, corpus: Corpus) {
    || (exists p :: p in s.caches && s.caches[p] == Entry(v, corpus))
    || (exists k :: 0 <= k < |s.readers| && Holds(s.readers[k], v, corpus))
  }

  ghost predicate Holds(r: Reader, v: nat, corpus: Corpus) {
    r.Fetched? && r.version == v && r.corpus == corpus
  }

  /** If reader `r` is given a corpus tagged with the version it read, it is given a fresh one. */
  ghost predicate ServesOk(s: State, r: Reader, v: nat, corpus: Corpus) {
    r.VersionRead? && r.quiet && r.version == v && corpus != map[] ==> SeenSince(s, r.since, corpus)
  }

  ghost predicate ReaderOk(s: State, r: Reader) {
    match r
    case VersionRead(_, v, since, _) => v <= Version(s.raw) && 1 <= since <= |s.history|
    case Fetching(_, v) => v <= Version(s.raw)
    case _ => true
  }

  ghost predicate StoreInv(s: State) {
    && |s.history| > 0 && s.history[|s.history| - 1] == s.corpus
    && (s.corpus != map[] ==> s.raw + Done(s.writers) >= 1)
    && (forall p :: p in s.caches ==> s.caches[p].corpus != map[])
    && (forall i :: 0 <= i < |s.readers| ==> ReaderOk(s, s.readers[i]))
  }

  ghost predicate TagInv(s: State) {
    forall v: nat, corpus: Corpus :: Tagged(s, v, corpus) ==> TagOk(s, v, corpus)
  }

  ghost predicate ServeInv(s: State) {
    forall i, v: nat, corpus: Corpus :: 0 <= i < |s.readers| && Tagged(s, v, corpus) ==>
          ServesOk(s, s.readers[i], v, corpus)
  }

  ghost predicate Inv(s: State) {
    StoreInv(s) && TagInv(s) && ServeInv(s)
  }

  lemma SeenStays(s: State, s': State, since: nat, corpus: Corpus)
    requires s.history <= s'.history && SeenSince(s, since, corpus)
    ensures SeenSince(s', since, corpus)
  {
    var h :| since - 1 <= h < |s.history| && 0 <= h && s.history[h] == corpus;
    assert s'.history[h] == corpus;
  }

  lemma WriterKeepsReaders(s: State, j: nat)
    requires StoreInv(s) && j < |s.writers|
    ensures var s' := Next(s, StepWriter(j));
            forall i :: 0 <= i < |s'.readers| ==> ReaderOk(s', s'.readers[i])
  {
    var s' := Next(s, StepWriter(j));
    forall i | 0 <= i < |s'.readers|
      ensures ReaderOk(s', s'.readers[i])
    {
      assert ReaderOk(s, s.readers[i]);
    }
  }

  lemma WriterKeepsStore(s: State, j: nat)
    requires StoreInv(s) && j < |s.writers|
    ensures var s' := Next(s, StepWriter(j));
            && StoreInv(s') && s.history <= s'.history && Version(s.raw) <= Version(s'.raw)
            && (forall v: nat, corpus: Corpus :: TagOk(s, v, corpus) ==> TagOk(s', v, corpus))
  {
    var s' := Next(s, StepWriter(j));
    CountsUpdate(s.writers, j, s'.writers[j]);
    QuietMeansNoneDirty(s.writers);
    QuietMeansNoneDirty(s'.writers);
    WriterKeepsReaders(s, j);
    WriterKeepsTags(s, j);
  }

  lemma WriterKeepsTags(s: State, j: nat)
    requires StoreInv(s) && j < |s.writers|
    ensures var s' := Next(s, StepWriter(j));
            forall v: nat, corpus: Corpus :: TagOk(s, v, corpus) ==> TagOk(s', v, corpus)
  {
    var s' := Next(s, StepWriter(j));
    CountsUpdate(s.writers, j, s'.writers[j]);
    QuietMeansNoneDirty(s.writers);
    QuietMeansNoneDirty(s'.writers);
  }

  lemma WriterKeeps(s: State, j: nat)
    requires Inv(s) && j < |s.writers|
    ensures Inv(Next(s, StepWriter(j)))
  {
    var s' := Next(s, StepWriter(j));
    WriterKeepsStore(s, j);
    forall v: nat, corpus: Corpus | Tagged(s', v, corpus)
      ensures Tagged(s, v, corpus)
    {
    }
    forall i, v: nat, corpus: Corpus | 0 <= i < |s'.readers| && Tagged(s', v, corpus)
      ensures ServesOk(s', s'.readers[i], v, corpus)
    {
      var r := s.readers[i];
      assert ServesOk(s, r, v, corpus);
      if r.VersionRead? && SeenSince(s, r.since, corpus) {
        SeenStays(s, s', r.since, corpus);
      }
    }
  }

  /** The tags after a reader's step: those before it, and a freshly fetched corpus. */
  lemma ReaderTags(s: State, i: nat, v: nat, corpus: Corpus)
    requires i < |s.readers| && Tagged(Next(s, StepReader(i)), v, corpus)
    ensures Tagged(s, v, corpus) || (corpus == s.corpus && s.readers[i].Fetching? && s.readers[i].version == v)
  {
    var s' := Next(s, StepReader(i));
    if p :| p in s'.caches && s'.caches[p] == Entry(v, corpus) {
      if !(p in s.caches && s.caches[p] == Entry(v, corpus)) {
        assert Holds(s.readers[i], v, corpus);
      }
    } else {
      var k :| 0 <= k < |s'.readers| && Holds(s'.readers[k], v, corpus);
      if k != i {
        assert Holds(s.readers[k], v, corpus);
      }
    }
  }

  lemma ReaderKeepsStore(s: State, i: nat)
    requires StoreInv(s) && i < |s.readers|
    ensures StoreInv(Next(s, StepReader(i)))
  {
    var s' := Next(s, StepReader(i));
    assert ReaderOk(s, s.readers[i]);
    QuietMeansNoneDirty(s.writers);
    forall k | 0 <= k < |s'.readers|
      ensures ReaderOk(s', s'.readers[k])
    {
      assert ReaderOk(s, s.readers[k]);
    }
  }

  lemma ReaderKeeps(s: State, i: nat)
    requires Inv(s) && i < |s.readers|
    ensures Inv(Next(s, StepReader(i)))
  {
    var s' := Next(s, StepReader(i));
    ReaderKeepsStore(s, i);
    assert s'.history == s.history && s'.corpus == s.corpus && s'.raw == s.raw && s'.writers == s.writers;
    forall v: nat, corpus: Corpus | Tagged(s', v, corpus)
      ensures TagOk(s', v, corpus)
      ensures forall k :: 0 <= k < |s'.readers| ==> ServesOk(s', s'.readers[k], v, corpus)
    {
      ReaderTags(s, i, v, corpus);
      assert TagOk(s, v, corpus);
      forall k | 0 <= k < |s'.readers|
        ensures ServesOk(s', s'.readers[k], v, corpus)
      {
        ServesAfterReader(s, i, k, v, corpus);
      }
    }
  }

  lemma ServesAfterReader(s: State, i: nat, k: nat, v: nat, corpus: Corpus)
    requires Inv(s) && i < |s.readers| && k < |s.readers|
    requires Tagged(s, v, corpus) || corpus == s.corpus
    requires TagOk(s, v, corpus)
    ensures ServesOk(Next(s, StepReader(i)), Next(s, StepReader(i)).readers[k], v, corpus)
  {
    var s' := Next(s, StepReader(i));
    var r := s'.readers[k];
    assert ReaderOk(s, s.readers[k]);
    QuietMeansNoneDirty(s.writers);
    if r.VersionRead? && r.quiet && r.version == v && corpus != map[] {
      var last := |s.history| - 1;
      if corpus == s.corpus {
        assert s'.history[last] == corpus;
      } else {
        assert k != i;
        assert ServesOk(s, s.readers[k], v, corpus);
        SeenStays(s, s', r.since, corpus);
      }
    }
  }

  lemma StartKeeps(s: State, a: Action)
    requires Inv(s) && (a.StartReader? || a.StartIngest? || a.StartDelete?)
    ensures Inv(Next(s, a))
  {
    var s' := Next(s, a);
    if !a.StartReader? {
      CountsAppend(s.writers, s'.writers[|s.writers|]);
    }
    forall k | 0 <= k < |s'.readers|
      ensures ReaderOk(s', s'.readers[k])
    {
      if k < |s.readers| {
        assert ReaderOk(s, s.readers[k]);
      }
    }
    forall v: nat, corpus: Corpus | Tagged(s', v, corpus)
      ensures Tagged(s, v, corpus) && TagOk(s', v, corpus)
    {
      if k :| 0 <= k < |s'.readers| && Holds(s'.readers[k], v, corpus) {
        assert Holds(s.readers[k], v, corpus);
      }
      assert TagOk(s, v, corpus);
    }
    forall i, v: nat, corpus: Corpus | 0 <= i < |s'.readers| && Tagged(s', v, corpus)
      ensures ServesOk(s', s'.readers[i], v, corpus)
    {
      if i < |s.readers| {
        assert ServesOk(s, s.readers[i], v, corpus);
        if s.readers[i].VersionRead? && SeenSince(s, s.readers[i].since, corpus) {
          SeenStays(s, s', s.readers[i].since, corpus);
        }
      }
    }
  }

  /** Every writer that changed the store reaches its bump: no upsert fails after its delete. */
  ghost predicate EveryWriterBumps(actions: seq<Action>) {
    forall k :: 0 <= k < |actions| ==> !actions[k].FailUpsert?
  }

  lemma {:induction false} RunKeeps(s: State, actions: seq<Action>)
    requires Inv(s) && EveryWriterBumps(actions)
    ensures Inv(Run(s, actions))
    decreases |actions|
  {
    if actions != [] {
      var a := actions[0];
      match a {
        case StepReader(i) => if i < |s.readers| { ReaderKeeps(s, i); }
        case StepWriter(j) => if j < |s.writers| { WriterKeeps(s, j); }
        case StartReader(_) => StartKeeps(s, a);
        case StartIngest(_, _) => StartKeeps(s, a);
        case StartDelete(_) => StartKeeps(s, a);
        case FailUpsert(_) => assert false;
      }
      RunKeeps(Next(s, a), actions[1..]);
    }
  }

  /** In any run from an empty store: when no writer is between its change and its bump, an entry
      tagged with the current version holds exactly the current corpus. */
  lemma QuietHitIsCurrent(actions: seq<Action>, process: nat)
    requires EveryWriterBumps(actions)
    requires var s := Run(EMPTY, actions);
             Hit(s, process, Version(s.raw)) && forall j :: 0 <= j < |s.writers| ==> !s.writers[j].Dirty()
    ensures var s := Run(EMPTY, actions); s.caches[process].corpus == s.corpus
  {
    RunKeeps(EMPTY, actions);
    var s := Run(EMPTY, actions);
    QuietMeansNoneDirty(s.writers);
    assert Tagged(s, Version(s.raw), s.caches[process].corpus);
  }

  /** Every hit, racing or not: a reader that read its version while no writer was dirty is given a
      corpus that was the store's exact content at some moment since that read. */
  lemma HitsAreLinearizable(actions: seq<Action>, i: nat)
    requires EveryWriterBumps(actions)
    requires var s := Run(EMPTY, actions);
             i < |s.readers| && s.readers[i].VersionRead? && s.readers[i].quiet &&
             Hit(s, s.readers[i].process, s.readers[i].version)
    ensures var s := Run(EMPTY, actions);
            var r := Next(s, StepReader(i)).readers[i];
            r.Answered? && r.answer.Some? && SeenSince(s, s.readers[i].since, r.answer.value)
  {
    RunKeeps(EMPTY, actions);
    var s := Run(EMPTY, actions);
    var r := s.readers[i];
    assert Tagged(s, r.version, s.caches[r.process].corpus);
    assert ServesOk(s, r, r.version, s.caches[r.process].corpus);
  }

  /** A run given state by state. */
  lemma {:induction false} PathIsRun(states: seq<State>, actions: seq<Action>)
    requires |states| == |actions| + 1
    requires forall k :: 0 <= k < |actions| ==> states[k + 1] == Next(states[k], actions[k])
    ensures Run(states[0], actions) == states[|actions|]
    decreases |actions|
  {
    if actions != [] {
      PathIsRun(states[1..], actions[1..]);
    }
  }

  lemma {:induction false} RunSplits(s: State, before: seq<Action>, after: seq<Action>)
    ensures Run(s, before + after) == Run(Run(s, before), after)
    decreases |before|
  {
    if before == [] {
      assert before + after == after;
    } else {
      assert (before + after)[1..] == before[1..] + after;
      RunSplits(Next(s, before[0]), before[1..], after);
    }
  }

  const CHUNKS: Corpus := map["d_0" := Chunk("d", "text", "d.txt")]
  const INGESTING: seq<Action> := [StartIngest("d", CHUNKS), StepWriter(0), StepWriter(0), StepWriter(0)]
  const READING: seq<Action> := [StartReader(0), StepReader(0), StepReader(0), StepReader(0), StepReader(0)]
  const FAILING: seq<Action> := [StartIngest("d", CHUNKS), StepWriter(1), FailUpsert(1)]

  /** One ingest has completed; the first bump left the version at 1. */
  const INGESTED: State := State(1, CHUNKS, [map[], map[], CHUNKS], map[], [], [WriterDone])

  /** Process 0 has then cached the corpus under version 1. */
  const CACHED: State := INGESTED.(caches := map[0 := Entry(1, CHUNKS)], readers := [Answered(Some(CHUNKS))])

  lemma IngestedIsReached()
    ensures Run(EMPTY, INGESTING) == INGESTED
  {
    var s1 := Next(EMPTY, INGESTING[0]);
    var s2 := Next(s1, INGESTING[1]);
    assert s2.corpus == map[] && s2.writers == [IngestUpserting(CHUNKS)];
    var s3 := Next(s2, INGESTING[2]);
    assert s3.corpus == CHUNKS && s3.writers == [Bumping];
    assert Next(s3, INGESTING[3]) == INGESTED;
    PathIsRun([EMPTY, s1, s2, s3, INGESTED], INGESTING);
  }

  lemma CachedIsReached()
    ensures Run(INGESTED, READING) == CACHED
  {
    var s1 := Next(INGESTED, READING[0]);
    var s2 := Next(s1, READING[1]);
    assert s2.readers == [VersionRead(0, 1, 3, true)];
    var s3 := Next(s2, READING[2]);
    assert s3.readers == [Fetching(0, 1)];
    var s4 := Next(s3, READING[3]);
    assert s4.readers == [Fetched(0, 1, CHUNKS)];
    assert CHUNKS != map[] by { assert "d_0" in CHUNKS; }
    assert Next(s4, READING[4]).readers == CACHED.readers;
    assert Next(s4, READING[4]) == CACHED;
    PathIsRun([INGESTED, s1, s2, s3, s4, CACHED], READING);
  }

  /** A re-ingest of `documentId` that deletes the old chunks and then fails. */
  function FailedIngest(s: State, documentId: string, chunks: Corpus): State {
    Run(s, [StartIngest(documentId, chunks), StepWriter(|s.writers|), FailUpsert(|s.writers|)])
  }

  lemma FailedIngestDeletes(s: State, documentId: string, chunks: Corpus)
    ensures var s' := FailedIngest(s, documentId, chunks);
            && s'.raw == s.raw && s'.caches == s.caches && s'.corpus == WithoutDocument(s.corpus, documentId)
            && s'.writers == s.writers + [WriterDone]
  {
    var j := |s.writers|;
    var actions := [StartIngest(documentId, chunks), StepWriter(j), FailUpsert(j)];
    var s1 := Next(s, actions[0]);
    assert s1.writers[j] == IngestDeleting(documentId, chunks);
    var s2 := Next(s1, actions[1]);
    assert s2.writers == s.writers + [IngestUpserting(chunks)];
    var s3 := Next(s2, actions[2]);
    assert s3.writers == s.writers + [WriterDone];
    PathIsRun([s, s1, s2, s3], actions);
  }

  lemma DeletionChangesIff(corpus: Corpus, documentId: string)
    ensures WithoutDocument(corpus, documentId) == corpus
       <==> forall id :: id in corpus ==> corpus[id].documentId != documentId
  {
    var left := WithoutDocument(corpus, documentId);
    if forall id :: id in corpus ==> corpus[id].documentId != documentId {
      assert left == corpus;
    } else {
      var id :| id in corpus && corpus[id].documentId == documentId;
      assert id !in left;
    }
  }

  /** A failed re-ingest never bumps, so every current entry goes on being hit; it stays current if and only if the
      document had no chunk in the store. */
  lemma FailedUpsertStaysCurrentIff(s: State, process: nat, documentId: string, chunks: Corpus)
    requires Hit(s, process, Version(s.raw)) && s.caches[process].corpus == s.corpus
    ensures var s' := FailedIngest(s, documentId, chunks);
            && Hit(s', process, Version(s'.raw))
            && (s'.caches[process].corpus == s'.corpus
                <==> forall id :: id in s.corpus ==> s.corpus[id].documentId != documentId)
  {
    FailedIngestDeletes(s, documentId, chunks);
    DeletionChangesIff(s.corpus, documentId);
  }

  /** A second ingest of a document reaches such a stale hit with no writer dirty: `EveryWriterBumps` cannot be
      dropped. The upload route dispatches one ingest for each new document only, so it takes a direct call. */
  lemma FailedUpsertServesStale()
    ensures var s := Run(EMPTY, INGESTING + READING + FAILING);
            && Hit(s, 0, Version(s.raw)) && s.caches[0].corpus != s.corpus
            && (forall j :: 0 <= j < |s.writers| ==> !s.writers[j].Dirty())
  {
    IngestedIsReached();
    CachedIsReached();
    RunSplits(EMPTY, INGESTING, READING);
    RunSplits(EMPTY, INGESTING + READING, FAILING);
    assert Run(EMPTY, INGESTING + READING + FAILING) == FailedIngest(CACHED, "d", CHUNKS);
    FailedIngestDeletes(CACHED, "d", CHUNKS);
    FailedUpsertStaysCurrentIff(CACHED, 0, "d", CHUNKS);
    assert "d_0" in CHUNKS && CHUNKS["d_0"].documentId == "d";
  }
}
