# Verified model of a course-material tutor

This project models the parts of the repository whose guarantees span several functions, and proves them in Dafny.

* **Planner** (`planner*.dfy`): lectures, their version history and the background jobs, as a state machine over single
  database steps. Every operation works on a snapshot of the lecture and saves the whole snapshot back. Two comments of the
  source do not hold: the last branch of `retry_lecture` is reachable, and an edit during the first generate job can be
  overwritten for good. Both come with a run that shows it and with the exact condition; `planner_race.dfy` and
  `planner_refine_race.dfy` have it for every interleaving of an edit with a generate or a refine attempt.
* **Content version, corpus cache, answer cache** (`content_version.dfy`, `store_versions.dfy`, `answer_cache.dfy`,
  `text.dfy`): version-tagged caches over a store that several readers and writers change, and the store's own operations as
  such writers. An absent counter reads as 1 and the first INCR gives 1, so the first bump invalidates nothing; the corpus
  cache survives that, the answer cache does not.
* **Retrieval** (`ranking.dfy`, `retriever.dfy`): reciprocal rank fusion over exact rationals, with a stable sort.
* **Chat** (`json_text.dfy`, `sse.dfy`, `chat_turn.dfy`, `chat_interleaving.dfy`): the event stream from printer to
  incremental reader (WHATWG HTML Living Standard, sections 9.2.5 and 9.2.6; string escapes from section 7 of RFC 8259), the
  turn on the server, the state machine in the browser, and their agreement. `chat_turn.dfy` takes a turn as a whole;
  `chat_interleaving.dfy` takes it step by step, with any number of turns in flight and sessions deleted in between, and
  says exactly what then becomes of cached answers and transcripts.
* **Admission and resilience** (`rate_limit.dfy`, `quota.dfy`, `resilience.dfy`, `llm_stream.dfy`, `json_cut.dfy`):
  fixed-window limiter, token quota, circuit breaker with retry, the streaming client and the relay in front of the
  providers. The relay reports a failure as an error frame followed by `[DONE]`, which the client reads as a success: an
  outage becomes an empty answer that is charged nothing, stored and cached (`RelayedCompletion.OutageReadsAsSuccess`,
  `ChatAgreement.EmptyAnswerIsKept`).
* **Documents and ingest** (`documents.dfy`, `document_race.dfy`, `ingest.dfy`): content-addressed files shared between
  documents, one upload against one deletion step by step, the cascade that deletes a subject, and the two-pass ingest
  with its cache, charges and chunk replacement.
* **Markdown** (`rewriting.dfy`, `flat_fractions.dfy`, `flat_logarithms.dfy`, `flat_logarithms_twice.dfy`,
  `display_math.dfy`, `protected_spans.dfy`): the regular expressions as scanners, each tied to a description of what it
  matches.

Mongo, Redis, Chroma, the object store, the clock and the language model appear as maps, integers and parameters. What a
parameter may be is not restricted further than its type, unless the member says so. Code that changes state is modelled by
classes and methods; each is proved equal to a specification function, and the theorems are about those functions.

Where code and comments disagree the model follows the code:

* `lectures.py:101-105` calls the last branch of `retry_lecture` unreachable; see `PlannerHazards.RetryDeadEndIsReachable`.
* `chat_cache.py:74-78` says a bump invalidates cached answers; see `AnswerCache.BumpEmptiesIff`.
* `resilience.py:30-31` speaks of one trial call after the cooldown; the open test lets every call through until an outcome
  is recorded, which is why the bound on attempts is stated for sequential calls.
* `rate_limit.py:41-47` takes the reported time to live for the seconds left; see `RateLimit.WaitingClientAdmittedIff`.
* `use-chat-stream.ts:7-8` says exactly one terminal event ends a turn; a stream that ends without one leaves the browser
  streaming (`ChatAgreement.EndState`).

`dafny verify dfyconfig.toml` checks the project.

## Model

| member | source | states |
|---|---|---|
| `Planner.NextVersionNumber` | src/ucenik/workers/planner_tasks.py:59-63 | The number a refine job picks is unused, one above every stored number, and directly above a stored one unless it is 1. |
| `PlannerSafety.AppendKeepsContiguous` | src/ucenik/models/lecture_versions.py:33-35 | An insert that the unique index lets through extends 1..n to 1..n+1 and rewrites nothing. |
| `PlannerSafety.AdvanceKeeps` | src/ucenik/workers/planner_tasks.py:81-204 | Each database step of any operation, with any stale snapshot, keeps versions 1..n, history and the bound on the current version. |
| `PlannerSafety.RunKeeps` | src/ucenik/workers/planner_tasks.py:81-204 | The same for every interleaving of edits, rollbacks, generate jobs and refine jobs, from any state that satisfies the invariant. |
| `PlannerSafety.EveryRunIsContiguous` | src/ucenik/services/lectures.py:30-70 | In every run from a new lecture the versions are exactly 1..n, the current version is 0 or one of them, and its content can be read whenever it is positive. |
| `PlannerSafety.HistoryIsAppendOnly` | src/ucenik/services/lectures.py:117-137 | Along every run no stored version ever disappears or changes. |
| `PlannerSafety.RefineNeedsContent` | src/ucenik/services/lectures.py:73-83 | In every run a refine can be requested exactly when there is content and no job is shown at work. |
| `PlannerSequential.EditAlone` | src/ucenik/services/lectures.py:60-70 | A manual edit alone appends version n+1 and makes it current. |
| `PlannerSequential.RollbackAlone` | src/ucenik/services/lectures.py:117-137 | A rollback alone appends an exact copy of its target as version n+1; an unknown target changes nothing. |
| `PlannerSequential.GenerateAlone` | src/ucenik/workers/planner_tasks.py:81-136 | One generate attempt alone succeeds exactly when the model answers and the lecture has no version; otherwise it asks for a retry or fails without a version. |
| `PlannerSequential.RefineAlone` | src/ucenik/workers/planner_tasks.py:139-204 | One refine attempt alone succeeds exactly when the model answers and there is a current version; its transform is remembered however it ends. |
| `PlannerSequential.OneAtATime` | src/ucenik/services/lectures.py:60-137 | When operations do not overlap, the versions stay exactly 1..current version. |
| `PlannerSequential.ChainIsBounded` | src/ucenik/workers/planner_tasks.py:207-220 | With retries a job makes at most four attempts, all but the last leave history and usage alone, and the last ends ready or failed with at most one charge and one version, never a version without its charge. |
| `PlannerCharges.EveryAiVersionIsCharged` | src/ucenik/workers/planner_tasks.py:103-112 | In every run, however interleaved, there are at most as many versions written by the model as charges. |
| `PlannerHazards.AppendsIffAtHead` | src/ucenik/services/lectures.py:60-64 | An in-flight edit or rollback gets its version stored if and only if its snapshot is at the head of the history. |
| `PlannerHazards.RollbackCopies` | src/ucenik/services/lectures.py:124-131 | However stale its snapshot, a rollback in flight stores an exact copy of its target or nothing. |
| `PlannerHazards.WedgedForever` | src/ucenik/workers/planner_tasks.py:106-117 | A lecture whose row says "no version" while versions exist stays that way in every further run of edits, rollbacks, retries and jobs. |
| `PlannerHazards.EditDuringGenerateWedges` | src/ucenik/workers/planner_tasks.py:114-117 | Such a lecture is reachable: an edit made while the first generate job runs is overwritten by the job's stale save. |
| `PlannerRace.RaceWedgesIff` | src/ucenik/workers/planner_tasks.py:81-136 | An edit and a generate attempt on a new lecture, interleaved in any way, leave it wedged if and only if the job loaded the lecture before the edit was saved and saved its snapshot after that; otherwise the row names the newest version. |
| `PlannerRace.RaceIsRun` | src/ucenik/workers/planner_tasks.py:81-136 | Each such interleaving is a run of the whole system. |
| `PlannerHazards.StaleGenerateWedgesIff` | src/ucenik/workers/planner_tasks.py:91-136 | A generate attempt that goes on with a stale "no version" snapshot takes the current version away exactly when it asks for no retry. |
| `PlannerHazards.StaleRefineFallsBehindIff` | src/ucenik/workers/planner_tasks.py:156-204 | From the model call on, and with nothing else happening, a refine attempt whose snapshot is behind the history leaves the lecture behind exactly when it is marked failed; `PlannerRefineRace.RaceEndsInStepIff` has every interleaving. |
| `PlannerRefineRace.RaceEndsInStepIff` | src/ucenik/workers/planner_tasks.py:139-204 | An edit and a refine attempt on a lecture in step, interleaved in any way, leave it in step if and only if: the attempt stored a version, and did not save it between the edit's insert and the edit's save; or the attempt stored none, and did not save a snapshot from before the edit's save after that save. Otherwise the row names an old version. |
| `PlannerRefineRace.SuccessfulRefineIsLost` | src/ucenik/services/lectures.py:60-70 | On every lecture in step with a version, some interleaving in which both succeed ends with the row one version back. |
| `PlannerRefineRace.RetriedRefineLosesEdit` | src/ucenik/workers/planner_tasks.py:139-204 | Some interleaving in which the attempt only asks for a retry takes the row back behind the edit. |
| `PlannerRefineRace.LosingRefineIsReachable` | src/ucenik/workers/planner_tasks.py:139-204 | A run from a new lecture ends in such a state. |
| `PlannerHazards.BehindRecoversIff` | src/ucenik/services/lectures.py:60-137 | A request handled alone brings a lecture that is behind its history back in step if and only if it is a refine the model answers and the row names a version; every other request fails. |
| `PlannerHazards.RetryAlwaysDispatches` | src/ucenik/services/lectures.py:93-106 | The last branch of `retry_lecture` is not reached in any run whose generate jobs load a lecture without a version or with a transform to replay. |
| `PlannerHazards.DeadEndIffNotReplayable` | src/ucenik/services/lectures.py:93-106 | A generate job alone leads there if and only if the lecture it loads has a version and no transform. |
| `PlannerHazards.RetryDeadEndIsReachable` | src/ucenik/services/lectures.py:101-106 | The branch is reachable in the system, contrary to the comment there: a retried generate job waits while the lecture is edited by hand, then fails. |
| `PlannerHazards.RetryRepeatsTheJob` | src/ucenik/services/lectures.py:93-106 | A retry dispatches a fresh attempt at what failed: the generation while there is no version, else the refine with its transform and language; after any other ending it is refused. |
| `PlannerService.ManualEditLecture` | src/ucenik/services/lectures.py:60-70 | The method changes store and document exactly as the step semantics says. |
| `PlannerService.RollbackLectureVersion` | src/ucenik/services/lectures.py:117-137 | The same for a rollback. |
| `PlannerService.GenerateLecture` | src/ucenik/workers/planner_tasks.py:81-136 | The same for one generate attempt, the error clauses included. |
| `PlannerService.RefineLecture` | src/ucenik/workers/planner_tasks.py:139-204 | The same for one refine attempt. |
| `CorpusCacheSafety.RunKeeps` | src/ucenik/rag/retriever.py:61-79 | Every step of readers (read version, fetch, store entry) and writers (mutate, bump) in any interleaving keeps the tagging invariant of the corpus cache. |
| `CorpusCacheSafety.QuietHitIsCurrent` | src/ucenik/rag/retriever.py:67-79 | Whenever no writer is between its mutation and its bump, an entry tagged with the current version holds exactly the current corpus, across the first bump too. |
| `CorpusCacheSafety.HitsAreLinearizable` | src/ucenik/rag/retriever.py:67-70 | A reader that read the version at a quiet moment and hits is given a corpus the store really had since that moment. |
| `CorpusCacheSafety.FailedUpsertStaysCurrentIff` | src/ucenik/rag/ingest.py:94-100 | After a re-ingest that deleted the old chunks and failed, a current entry goes on being hit, and stays current if and only if the document had no chunk in the store. |
| `CorpusCacheSafety.FailedUpsertServesStale` | src/ucenik/rag/ingest.py:94-100 | A run that ends in such a stale hit with no writer under way: the assumption that every mutating writer reaches its bump is needed. It ingests one document twice, which the upload route never does (api/documents.py:80-85): the second ingest is a direct call. |
| `StoreVersions.DeletionIsWriter` | src/ucenik/services/documents.py:108-112 | Deleting a document in the store is, on what the readers of each subject see and on its version, the deleting writer of the state machine on its subject and nothing on any other. |
| `StoreVersions.IngestIsWriter` | src/ucenik/rag/ingest.py:91-100 | A complete ingest is the ingesting writer in the same sense, with the new chunks added to the others. |
| `StoreVersions.RefusedIngestIsFailure` | src/ucenik/rag/ingest.py:94-100 | An ingest the vector store refuses is the writer that fails between its two changes. |
| `StoreVersions.EarlierVersionMisses` | src/ucenik/rag/retriever.py:66-70 | After either writer no corpus cached under the version before is hit any more, except after the first bump of the subject, when it is. |
| `StoreVersions.AnswersMiss` | src/ucenik/cache/chat_cache.py:82-88 | The same for cached answers: all of them miss, except after the first bump, when none is affected. |
| `StoreVersions.KeysDiffer` | src/ucenik/rag/ingest.py:81 | Different chunks have different ids in the vector store, whatever the ids of their documents look like. |
| `Retriever.CorpusCache.LookUp` | src/ucenik/rag/retriever.py:67-70 | Between reading the version and fetching, the method takes the state machine's hit-or-fetch step on the cache it stands for. |
| `Retriever.CorpusCache.Keep` | src/ucenik/rag/retriever.py:72-79 | After the fetch it takes the machine's last step; empty corpora are never cached and other subjects keep their entries. |
| `Retriever.CorpusCache.GetCorpus` | src/ucenik/rag/retriever.py:61-79 | Run with nothing else, the whole function answers and leaves the cache as a reader of the machine does. |
| `QuestionKey.NormalizeIdempotent` | src/ucenik/cache/chat_cache.py:53-58 | Normalising a question twice is normalising it once, for every lower-casing that is itself idempotent. |
| `QuestionKey.SameKeyIffSameWords` | src/ucenik/cache/chat_cache.py:53-58 | Two questions share a key exactly when their lower-cased texts have the same words in the same order. |
| `QuestionKey.AsciiNormalizeIdempotent` | src/ucenik/cache/chat_cache.py:53-58 | The assumption on lower-casing holds for ASCII. |
| `AnswerCache.CacheIsPlainMap` | src/ucenik/cache/chat_cache.py:61-109 | After any history of sets and bumps, a lookup answers exactly like a plain map that each bump of its subject except the first empties. |
| `AnswerCache.BumpEmptiesIff` | src/ucenik/cache/chat_cache.py:74-79 | A bump makes all lookups of its subject miss if and only if the subject was bumped before or had nothing cached; the docstring promises it for every bump. |
| `AnswerFreshness.AnswersAreCurrentIff` | src/ucenik/cache/chat_cache.py:82-109 | After any run of whole asks and updates on a new subject, a question is answered from the present material unless there was exactly one update, the question was asked before it, and it changed the material. |
| `AnswerFreshness.LaterUpdateRefreshes` | src/ucenik/cache/chat_cache.py:74-79 | Every bump but the first leaves nothing stale to serve, whatever the cache held. |
| `AnswerFreshness.AtomicAsksStayFresh` | src/ucenik/cache/chat_cache.py:82-109 | From then on whole asks and updates keep it so. |
| `AnswerFreshness.FirstIngestServesStale` | src/ucenik/cache/chat_cache.py:70-71 | The exception occurs: a question cached on an empty subject is still served after the first ingest. |
| `AnswerInterleaving.ServedIsCurrentIff` | src/ucenik/cache/chat_cache.py:90-109 | With asks of three steps and updates of two (change, bump) interleaved in any way, once every change is bumped, the answer the cache would serve comes from the present material if and only if the material did not change between its generation and its store, and it was not stored before the only change so far; while a change waits for its bump, the answer must also be no older than that change. |
| `AnswerInterleaving.SlowAskIsServed` | src/ucenik/cache/chat_cache.py:100 | A run in which an overtaken ask stores its stale answer as a current one, because the version is read again at write time. |
| `AnswerInterleaving.AskAcrossBumpIsCurrent` | src/ucenik/cache/chat_cache.py:90-109 | A run in which an ask generates after the change and stores after its bump, and is current: only the change counts. |
| `AnswerCacheService.RedisClient.GetCachedAnswer` | src/ucenik/cache/chat_cache.py:82-87 | A lookup is the spec's lookup of the normal form at the current version. |
| `AnswerCacheService.RedisClient.SetCachedAnswer` | src/ucenik/cache/chat_cache.py:90-109 | A write is the spec's write under the version current at write time. |
| `AnswerCacheService.RedisClient.BumpSubjectVersion` | src/ucenik/cache/chat_cache.py:74-79 | A bump is one INCR of the subject's counter. |
| `StableSort.SortedBeforeIff` | src/ucenik/rag/retriever.py:99-120 | In the sorted list one entry precedes another exactly when its key is larger, or equal and it came first. |
| `Fusion.AgreementWins` | src/ucenik/rag/retriever.py:112-118 | On candidate lists of at most P entries and a constant above P-1, an id on both lists outscores every id on one. |
| `Fusion.AgreementWinsIff` | src/ucenik/rag/retriever.py:39-44 | That holds for all such lists if and only if the constant exceeds P-1, for every pool of at least two. |
| `Fusion.AgreementCanLose` | src/ucenik/rag/retriever.py:39-44 | The witness: with a constant of at most P-1 two lists exist on which agreement loses. |
| `Fusion.ScoreOfTwo` | src/ucenik/rag/retriever.py:115-118 | The score of an id is the sum of 1/(rank+K) over the lists that contain it. |
| `Retriever.Fuse` | src/ucenik/rag/retriever.py:115-118 | The fusion loop computes exactly these scores, and its dict's keys in first-seen order. |
| `Retriever.Retrieve` | src/ucenik/rag/retriever.py:95-131 | The method returns the chunks of the first k of the fused order. The sparse order is that of `Retriever.SparseBeforeIff`. |
| `Retriever.FusedBeforeIff` | src/ucenik/rag/retriever.py:112-120 | Candidates are ordered by score, equal scores in first-seen order with the dense list first, each exactly once. |
| `Retriever.TopIsBest` | src/ucenik/rag/retriever.py:120 | The kept ids are distinct, best first, and no omitted candidate scores above a kept one. |
| `Retriever.AgreedComesFirst` | src/ucenik/rag/retriever.py:112-120 | With the pool of 20 and the constant 60, what both searches found precedes what only one found. |
| `Retriever.SparseIsCandidates` | src/ucenik/rag/retriever.py:99-105 | The sparse list has min(20, corpus size) distinct ids of the corpus. |
| `Retriever.SparseBeforeIff` | src/ucenik/rag/retriever.py:99-105 | Of two chunks in the sparse list the one with the higher BM25 score stands first, equal scores in corpus order; no omitted chunk should have come before a kept one. |
| `Retriever.FusedScoreIs` | src/ucenik/rag/retriever.py:112-119 | A candidate scores 1/(rank + 60) for each of the two lists that has it. |
| `Retriever.RetrieveReturnsTop` | src/ucenik/rag/retriever.py:82-131 | For k up to 20 exactly min(k, corpus size) chunks come back, each with the text and source of its own id. |
| `JsonText.JsonRoundTrip` | src/ucenik/services/chat.py:115-116 | `JSON.parse` of `json.dumps` gives back every value, strings as UTF-16. |
| `JsonText.Utf16Is` | frontend/src/lib/chat/sse.ts:26 | A code point beyond the first plane becomes a high and a low surrogate from which it can be computed back. |
| `JsonText.LastMemberWins` | frontend/src/lib/chat/sse.ts:26 | Of members with one name the last counts; others are unaffected. |
| `Sse.ParseFrame` | frontend/src/lib/chat/sse.ts:15-28 | The loop over lines computes the last `event:` value and all `data:` values in order; it yields an event, skips the frame or throws. |
| `Sse.FrameSays` | frontend/src/lib/chat/sse.ts:15-28 | A frame is an event named by its last `event:` line, with the JSON value of its `data:` lines joined in order by line breaks; it is skipped without a name or without data and throws when that is no JSON. |
| `Sse.DrainAppend` | frontend/src/lib/chat/sse.ts:51-61 | Draining the buffer depends only on the concatenation of what arrived. |
| `Sse.FirstThrowDecides` | frontend/src/lib/chat/sse.ts:57-59 | Once a frame throws, nothing later is delivered. |
| `Sse.StreamChatAnswer` | frontend/src/lib/chat/sse.ts:47-61 | The incremental reader yields exactly the events of the concatenated stream, up to the first frame that throws. |
| `Sse.FrameRoundTrip` | src/ucenik/services/chat.py:115-116 | `parseFrame` undoes `_sse` on every event with a clean name and an object as data. |
| `Sse.StreamRoundTrip` | frontend/src/lib/chat/sse.ts:47-61 | For every list of events and every cut of the printed stream into chunks, exactly those events arrive, in order. |
| `Sse.WireIsAscii` | frontend/src/lib/chat/sse.ts:54 | The wire carries ASCII only, so decoding chunk by chunk never splits a character. |
| `ChatTurn.UniqueCites` | src/ucenik/services/chat.py:119-130 | A document is cited exactly when one of its chunks was retrieved. |
| `ChatTurn.UniqueIsDistinct` | src/ucenik/services/chat.py:119-130 | No document is cited twice. |
| `ChatTurn.UniqueIsInOrder` | src/ucenik/services/chat.py:119-130 | The best-ranked chunk of a document decides its entry and its place. |
| `ChatTurn.JoinedInOrder` | src/ucenik/services/chat.py:192-195 | The stored content is the deltas one after the other. |
| `ChatAgreement.Ask` | frontend/src/lib/chat/use-chat-stream.ts:24-57 | The loop ends in the state of the first terminal event, with the concatenated tokens before it as content. |
| `ChatAgreement.BrowserShows` | frontend/src/lib/chat/use-chat-stream.ts:24-47 | Of tokens followed by one terminal event, cut into chunks anyhow, the browser shows the concatenated tokens and that event. |
| `ChatAgreement.StoreAfterTurn` | src/ucenik/services/chat.py:146-244 | What a turn stores in every case: transcript, charge and cache; other sessions are untouched; a turn that fails or breaks off adds the question only. |
| `ChatAgreement.ScreenAndStoreAgree` | src/ucenik/services/chat.py:154-244 | On `done` the content on screen and the payload equal the stored assistant message; on `error` the screen keeps what arrived, and when the connection breaks it keeps nothing, wherever it breaks; in both cases no assistant message is stored. |
| `ChatAgreement.DoneDataSays` | src/ucenik/services/chat.py:232-244 | The payload of `done`, as the browser parses it, holds by name the message's id, its sources in order, its three token counts and whether it was cached. |
| `ChatAgreement.RefusedIff` | src/ucenik/services/chat.py:254-262 | A turn is refused exactly when the student is at the quota and the question is not a first one that is cached; it then changes nothing. |
| `ChatAgreement.UnfinishedShows` | frontend/src/lib/chat/use-chat-stream.ts:24-47 | A stream that ends without a terminal event leaves the browser streaming what arrived. |
| `ChatAgreement.BrokenShows` | frontend/src/lib/chat/use-chat-stream.ts:48-55 | When retrieval fails, or the stream breaks off with any first part of the tokens delivered, the browser ends up failed with empty content. |
| `ChatAgreement.RunKeepsCached` | src/ucenik/services/chat.py:253-265 | Whole turns, one after the other: no run without an update of the subject replaces a cached answer. `ChatCacheSafety.CachedStaysIff` has overlapping turns. |
| `ChatAgreement.ReplayShowsTheSame` | src/ucenik/services/chat.py:253-265 | Whole turns, one after the other: after any run without an update of the subject, a first question with the same normal form replays the same content, charges nothing and ignores the quota. `ChatCacheSafety.LaterAsksReplay` has overlapping turns. |
| `ChatAgreement.EmptyAnswerIsKept` | src/ucenik/services/chat.py:212-232 | A stream that ends without error and without token leaves an empty answer in transcript and cache. |
| `ChatAgreement.RunKeepsSound` | src/ucenik/services/chat.py:133-265 | Whole turns, one after the other, and no session deleted: every cached answer stands in a transcript as the answer to a first question, every answer follows a question, sessions are named after their first question, and transcripts only grow. `ChatTranscripts` has overlapping turns and deletions. |
| `ChatCacheSafety.RunKeepsGenuine` | src/ucenik/services/chat.py:221-230 | Over any interleaving of turn steps, deletions and updates, every cached answer was generated by a finished turn that asked this question of this subject and had found its session empty. |
| `ChatCacheSafety.CachedStaysIff` | src/ucenik/services/chat.py:247-265 | Over any interleaving without an update of the subject, a cached answer stays the one it is if and only if no turn that had missed it before it was stored stores its own since; only such a turn ever replaces it. |
| `ChatCacheSafety.LaterAsksReplay` | src/ucenik/services/chat.py:256-257 | A first question that looks up later is answered from the cache, with that answer or with one stored since by a turn that had missed it. |
| `ChatTranscripts.AnswerFollowsItsQuestionIff` | src/ucenik/services/chat.py:148-217 | In any interleaving, an answer in a transcript stands directly behind its own question if and only if no other turn stored a message in the session between the two and the session was not deleted in between. |
| `ChatTranscripts.CachedIsFirstAnswerIff` | src/ucenik/services/chat.py:221-230 | A cached answer is its session's first answer, behind the first question, if and only if the session was empty when that question was stored, nothing came between question and answer, and the session has not been deleted since. |
| `ChatTranscripts.OneTurnAtATimeSuffices` | src/ucenik/services/chat.py:133-265 | In a session that never has two turns in flight, and is not deleted while one is, every answer stands behind its question, and a cached answer from it is its first answer unless it has been deleted since. |
| `ChatOverlap.TurnAlone` | src/ucenik/services/chat.py:133-265 | Run alone, the steps of a turn store what the whole turn of `chat_turn.dfy` stores, and refuse when it refuses. |
| `ChatOverlap.OverlapReplacesCached` | src/ucenik/services/chat.py:221-230 | Two overlapping first questions with one normal form: the second answer replaces the cached first, without any update. |
| `ChatOverlap.OverlapMixesTranscript` | src/ucenik/services/chat.py:148-217 | Two overlapping questions in one session leave two questions followed by two answers. |
| `ChatOverlap.DeletionLeavesCached` | src/ucenik/services/chat.py:71-73 | A run after which a cached answer stands in no transcript, its session being deleted. |
| `ChatService.Tutor.UniqueSources` | src/ucenik/services/chat.py:119-130 | The dict-filling loop computes the sources specified above. |
| `ChatService.Tutor.StreamAnswerEvents` | src/ucenik/services/chat.py:133-244 | The generator stores and sends exactly what the turn function says. |
| `ChatService.Tutor.AnswerStream` | src/ucenik/services/chat.py:247-265 | Cache decision, quota check and turn together; a breached quota changes nothing. |
| `RateLimit.CounterCountsWindow` | src/ucenik/core/rate_limit.py:35-39 | The counter is the number of requests since the one that opened the window, and expires a window after it. |
| `RateLimit.AdmittedIff` | src/ucenik/core/rate_limit.py:40 | A request is let through exactly when fewer than the limit came before it in its window. |
| `RateLimit.WindowAdmits` | src/ucenik/core/rate_limit.py:35-52 | Each window lets through exactly min(limit, requests). |
| `RateLimit.AtMostTwiceTheLimit` | src/ucenik/core/rate_limit.py:35-52 | No closed interval as long as the window lets through more than twice the limit. |
| `RateLimit.WaitingClientAdmittedIff` | src/ucenik/core/rate_limit.py:41-52 | A rejected client that waits its Retry-After alone is let through if and only if the wait covers what is left of the window. |
| `RateLimit.RoundingUpSuffices` | src/ucenik/core/rate_limit.py:41-52 | It always does when the store rounds the remaining time up. |
| `RateLimit.RoundingToNearestSufficesIff` | src/ucenik/core/rate_limit.py:41-52 | When the store rounds to the nearest second, exactly which remaining times give a sufficient wait. |
| `RateLimit.RoundingToNearestCanFail` | src/ucenik/core/rate_limit.py:41-52 | A concrete run in which the client waits as told and is rejected again. |
| `RateLimiterService.RateLimiter.CheckAndIncrement` | src/ucenik/core/rate_limit.py:35-52 | One request changes its own counter as specified, no other, and reports the verdict. |
| `Breaker.BreakerCountsTrailingFailures` | src/ucenik/core/resilience.py:34-55 | After any trace the count is the length of the trailing run of failures, and the opening time is set exactly when that run reaches the threshold, to its last failure. |
| `Breaker.FailsFastIff` | src/ucenik/core/resilience.py:40-46 | Calls fail fast exactly when such a run exists and its last failure is less than the reset timeout ago. |
| `Breaker.AttemptsSpreadOut` | src/ucenik/core/resilience.py:71-81 | In an all-failing sequential run failures after the opening are at least a reset timeout apart. |
| `Breaker.AttemptsBounded` | src/ucenik/core/resilience.py:71-81 | At most threshold + D/reset calls are attempted by D after the first opening. |
| `Breaker.HttpAttemptsBounded` | src/ucenik/llm/proxy_client.py:115 | If no call makes more than `most` HTTP attempts, a run makes at most `most` for every call the breaker let through. |
| `Resilience.FifteenUpToOpening` | src/ucenik/llm/proxy_client.py:34-115 | Under `complete`, with a threshold of five, at most fifteen HTTP attempts are made up to the first opening. |
| `Resilience.LastAttempt` | src/ucenik/core/resilience.py:97-107 | Attempts stop at the first outcome that is not a retryable failure, or at the last one. |
| `Resilience.RetryWithBackoff` | src/ucenik/core/resilience.py:84-107 | The loop returns that outcome after the stated capped exponential delays; with no attempts at all it raises an unset variable. |
| `Resilience.DelayDoubles` | src/ucenik/core/resilience.py:92-106 | The first delay is the base, each further one twice the one before, none longer than the longest. |
| `Resilience.CircuitBreaker.RecordFailure` | src/ucenik/core/resilience.py:52-69 | A failure extends the trace and keeps both fields what the trace says. |
| `Resilience.CircuitBreaker.RecordSuccess` | src/ucenik/core/resilience.py:48-66 | A success likewise. |
| `Resilience.CircuitBreaker.CheckOpen` | src/ucenik/core/resilience.py:40-63 | The open test is the trace condition. |
| `Resilience.CircuitBreaker.CallWithRetry` | src/ucenik/llm/proxy_client.py:113-127 | `complete`: open means no attempt and no record; otherwise one to three attempts and exactly one recorded outcome. |
| `CompletionStream.ReadAppend` | src/ucenik/llm/proxy_client.py:241-255 | Reading lines is compositional: it goes on where it stopped, or ignores what follows a stop. |
| `StreamedTokens.ReadDelivers` | src/ucenik/llm/proxy_client.py:243-256 | The tokens delivered are, in the order of the lines, the non-empty `choices[0].delta.content` of the lines before the first `[DONE]` or unreadable line, and no such line is left out; the usage is the last non-empty one among them; the reading knows why it stopped. All of it stated on the parsed objects. |
| `StreamedTokens.AttemptEnds` | src/ucenik/llm/proxy_client.py:241-270 | An attempt ends in an HTTP error exactly when the connection is lost and nothing ended the reading before; it ends well only after `[DONE]` or all lines, with the three counts of that usage by name, 0 for one that is missing. |
| `StreamingClient.LastTriedIs` | src/ucenik/llm/proxy_client.py:232-287 | Every attempt before the last delivered no token and ended in an HTTP error; the last did not, or is the third. |
| `StreamingClient.ReadLines` | src/ucenik/llm/proxy_client.py:241-255 | The line loop collects tokens and usage up to `[DONE]` or the first malformed line. `StreamedTokens.ReadDelivers` says what these are. |
| `StreamingClient.StreamComplete` | src/ucenik/llm/proxy_client.py:223-301 | Tokens come from the last attempt alone; a run let through records exactly one outcome, or none when it ends in an error that is not an HTTP error. `StreamedTokens.AttemptEnds` says which tokens and which counts. |
| `Relay.RelayStream` | src/ucenik/llm_proxy/main.py:132-180 | Bytes come from at most one provider, a later one is contacted only if no earlier one was committed to, and every failure ends in an error frame and `[DONE]`. |
| `Relay.Upstreams` | src/ucenik/llm_proxy/main.py:55-72 | Hugging Face is tried first if and only if it has a key, and Groq is always the last resort. |
| `Relay.ChatCompletions` | src/ucenik/llm_proxy/main.py:95-129 | Without streaming: the first reply that is no error, else the last provider's error reply, else 503; no provider is asked after a good reply. |
| `RelayedCompletion.BrokenStreamEnds` | src/ucenik/llm_proxy/main.py:169-180 | A provider that breaks off anywhere leaves the client with the tokens of the complete lines, and with a crash if the last line is a broken data line, with the ending of a complete stream otherwise. |
| `RelayedCompletion.LossUnnoticedIff` | src/ucenik/llm_proxy/main.py:169-180 | A truncated answer passes for a complete one if and only if `[DONE]` was seen or the provider did not break off inside a data line. |
| `RelayedCompletion.GluedIsRejected` | src/ucenik/llm/proxy_client.py:247 | A broken data line with the error line glued to it is never JSON. |
| `JsonCut.CutIsRejected` | src/ucenik/llm/proxy_client.py:247 | Whatever JSON text breaks off before it, no text that ends in the error line is accepted by the parser. |
| `RelayedCompletion.OutageReadsAsSuccess` | src/ucenik/llm_proxy/main.py:178-180 | When no provider answers, the client sees success without tokens and with zero usage. |
| `Filenames.SanitizedIsSafe` | src/ucenik/services/documents.py:42-44 | A sanitised name is non-empty, at most 255 long, and free of unsafe characters. |
| `Filenames.SanitizedIs` | src/ucenik/services/documents.py:39-44 | The stored name is the filename between its outer whitespace, unsafe characters replaced by underscores, cut to 255; "unnamed" when nothing is left. |
| `Filenames.SanitizeTwiceIff` | src/ucenik/services/documents.py:42-44 | Sanitising again changes nothing exactly when the cut did not leave whitespace at the end. |
| `DocumentStore.UploadKeeps` | src/ucenik/services/documents.py:47-91 | An upload keeps files and documents in step, no subject holding a file twice. |
| `DocumentStore.UploadAnswers` | src/ucenik/services/documents.py:47-91 | Exactly when an upload is refused for its type, for its size, or answered with a copy, which then changes nothing; and every field of the row a new document gets. |
| `DocumentStore.DeleteDocumentKeeps` | src/ucenik/services/documents.py:108-118 | Deleting a document keeps them in step: a shared file stays, an unshared one goes. |
| `DocumentStore.DeletionBumps` | src/ucenik/services/documents.py:109-110 | A deletion raises the content version of the document's subject by one and no other. |
| `DocumentStore.DeleteSubjectKeeps` | src/ucenik/services/subjects.py:46-64 | So does deleting a subject. |
| `DocumentStore.DeleteSubjectIsolated` | src/ucenik/services/subjects.py:46-64 | It takes all documents and chunks of the subject and leaves every other subject's documents, files and chunks. |
| `DocumentStore.DocumentKeepsItsFile` | src/ucenik/services/documents.py:98-118 | A document and its bytes stay through any run that deletes neither it nor its subject. |
| `DocumentStore.DeleteUndoesUpload` | src/ucenik/services/documents.py:47-118 | Deleting a document just uploaded restores rows, files and chunks exactly. |
| `DocumentStore.UploadTwice` | src/ucenik/services/documents.py:66-70 | The same bytes uploaded again to the subject change nothing and name the same document. |
| `DocumentStore.RacingUploads` | src/ucenik/services/documents.py:66-91 | Of two uploads of the same bytes to a subject that both pass the check, the first to insert gets the new document, the other is given it, and the store is consistent. |
| `DocumentStore.UploadAroundDeleteIff` | src/ucenik/services/documents.py:72-118 | When a whole delete falls between the file check and the row insert of an upload, files and rows stay in step if and only if the deleted document's file is another one or shared; `DocumentRace.RaceEndsConsistentIff` has every interleaving. |
| `DocumentRace.RaceEndsConsistentIff` | src/ucenik/services/documents.py:65-118 | An upload and a deletion, their steps interleaved in any way, leave files, rows and chunks consistent if and only if the deletion's last step does not remove a file that the upload has already found stored or has stored. |
| `DocumentRace.ReuploadLosesFile` | src/ucenik/services/documents.py:112-118 | The same bytes uploaded again, to the same or another subject, between the deletion's question who else uses the file and its last step: the new document has no file. |
| `DocumentRace.FileGetsLost` | src/ucenik/services/documents.py:112-118 | For every acceptable upload there are a consistent store and an interleaving where this happens. |
| `DocumentRace.DeletionAlone` | src/ucenik/services/documents.py:108-118 | The deletion's steps with nothing in between are the whole deletion. |
| `DocumentRace.UploadAlone` | src/ucenik/services/documents.py:65-91 | The upload's steps with nothing in between are the whole upload. |
| `DocumentService.Library.PrepareUpload` | src/ucenik/services/documents.py:54-73 | The part before the insert: checks, search for a copy, and storing the file. |
| `DocumentService.Library.InsertDocument` | src/ucenik/services/documents.py:75-91 | The insert with its duplicate-key branch: another upload's document of the same file is the answer. |
| `DocumentService.Library.UploadDocument` | src/ucenik/services/documents.py:47-91 | Both in a row answer and change the store as specified, all four outcomes. |
| `DocumentService.Library.DeleteDocumentRow` | src/ucenik/services/documents.py:108-118 | The same for deleting a document. The version: `DocumentStore.DeletionBumps`. |
| `DocumentService.Library.DeleteSubjectRows` | src/ucenik/services/subjects.py:46-64 | The same for deleting a subject, with its loop over content hashes, its enrollments and its own row. |
| `Ingest.MissesInOrder` | src/ucenik/rag/ingest.py:61-75 | Every listed miss is a chunk without a cached vector, and misses come in chunk order. |
| `Ingest.MissIsListed` | src/ucenik/rag/ingest.py:61-75 | Every chunk without a cached vector is listed. |
| `Ingest.EverySlotFilledIff` | src/ucenik/rag/ingest.py:78-83 | All slots are filled if and only if at least as many vectors come back as there were misses, and then with the right vectors. |
| `Ingest.CompleteIff` | src/ucenik/rag/ingest.py:51-107 | An ingest completes exactly when there are chunks, every miss passes quota and model, and enough vectors come back. |
| `Ingest.CompleteHasOwnVectors` | src/ucenik/rag/ingest.py:61-83 | Each chunk then has its own text, and its cached vector or the fresh vector of that text. |
| `Ingest.TextEndsWithChunk` | src/ucenik/rag/contextualizer.py:77-84 | Every stored text ends with its own chunk, and is the bare chunk exactly when its vector was cached or its context is blank. |
| `Ingest.CompleteTextsAre` | src/ucenik/rag/contextualizer.py:77-84 | In a complete ingest the text of a chunk whose vector was not cached is its context without surrounding whitespace, a blank line, and the chunk, or the bare chunk when nothing is left of the context; a cached chunk is stored bare. |
| `Ingest.PublishReplacesOwnChunks` | src/ucenik/rag/ingest.py:85-107 | The store holds exactly this document's chunks 0..n-1, `chunk_count` is n, and every other chunk of every subject is unchanged. |
| `Ingest.InterruptedIngest` | src/ucenik/rag/ingest.py:69-71 | An ingest that stops midway leaves chunk store and version alone, charges exactly the misses before the one that stopped it, and reports the quota or the model as the cause. |
| `Ingest.CompleteIngestCharges` | src/ucenik/rag/ingest.py:69-71 | A complete ingest charges exactly the tokens of the misses. |
| `Ingest.SpentIsSum` | src/ucenik/rag/ingest.py:66-68 | What the misses cost is the sum of their tokens. |
| `Ingest.FailureIsTold` | src/ucenik/rag/ingest.py:117-125 | Which kind of failure a user is told of when the text, the chunks, the embeddings or the vectors are missing. |
| `Ingest.OnlyCompleteIngestBumps` | src/ucenik/rag/ingest.py:97-100 | A complete ingest raises the content version of its subject by one and no other; every other ending raises none. |
| `Ingest.CompleteIngestCaches` | src/ucenik/rag/ingest.py:62-83 | Afterwards the embedding cache answers for every chunk text with the vector it had, or the stored vector of the last chunk with that text; all other entries are what they were. |
| `Ingest.AllCachedIsFree` | src/ucenik/rag/ingest.py:62-66 | When every chunk text is cached, an ingest completes whatever quota, model and embedding service do, charges nothing, and stores every chunk bare. |
| `Ingest.SecondIngestLosesContext` | src/ucenik/rag/ingest.py:62-71 | Ingesting the same chunks again charges nothing and replaces every contextualised text by the bare chunk; it happens when a file is deleted and uploaded again, or uploaded to another subject. |
| `Ingest.IngestKeepsConsistent` | src/ucenik/rag/ingest.py:26-128 | However an ingest ends, documents, files and chunks stay consistent. |
| `LibraryRuns.EveryHistoryIsConsistent` | src/ucenik/rag/ingest.py:26-128 | Over every history of uploads, deletions and ingests the stored files are exactly those of the documents and every chunk belongs to a document of its subject. |
| `IngestService.Ingester.Contextualise` | src/ucenik/rag/ingest.py:55-75 | The first pass computes texts, slots and misses and charges as specified, stopping where it should. What the texts are: `Ingest.CompleteTextsAre`. |
| `IngestService.Ingester.EmbedMisses` | src/ucenik/rag/ingest.py:77-83 | The second pass fills slots and cache as specified. |
| `IngestService.Ingester.IngestDocument` | src/ucenik/rag/ingest.py:26-128 | The whole job: document, chunks, version, cache and charge after every ending, with what the user is told. The texts: `Ingest.CompleteTextsAre`; the version: `Ingest.OnlyCompleteIngestBumps`. |
| `FlatFractions.MatchIff` | frontend/src/lib/markdown/renderer.tsx:97 | The pattern matches exactly the standalone digits/digits pairs. |
| `FlatFractions.RewritesExactlyThePairs` | frontend/src/lib/markdown/renderer.tsx:96-98 | All of them are rewritten and everything else is kept. What is written for a pair: `FlatFractions.FractionsAreWritten`. |
| `FlatFractions.FractionsAreWritten` | frontend/src/lib/markdown/renderer.tsx:96-98 | In the place of each standalone pair, in the order of the text and with everything else unchanged, stands `$\frac{`, the first group, `}{`, the second group, `}$`. |
| `FlatFractions.ChainsStayUntouched` | frontend/src/lib/markdown/renderer.tsx:96-98 | No rewritten pair touches a chain of three or more digit groups. |
| `FlatFractions.FixIdempotent` | frontend/src/lib/markdown/renderer.tsx:96-98 | Rewriting is idempotent on every text. |
| `FlatFractions.UnchangedIffNoPair` | frontend/src/lib/markdown/renderer.tsx:96-98 | A text stays as it is if and only if it contains no standalone pair. |
| `FlatLogarithms.CallIff` | frontend/src/lib/markdown/renderer.tsx:90 | The pattern matches exactly "log", perhaps an underscore, a base of digits or in braces, and an argument without parentheses. |
| `FlatLogarithms.OnlyCallsAreRewritten` | frontend/src/lib/markdown/renderer.tsx:89-94 | Every rewritten place is such a call. |
| `FlatLogarithms.EveryCallIsCovered` | frontend/src/lib/markdown/renderer.tsx:89-94 | Every call is rewritten or begins inside a rewritten one. |
| `FlatLogarithms.LogarithmsAreWritten` | frontend/src/lib/markdown/renderer.tsx:89-94 | In the place of each rewritten call stands `$\log_{`, its base without braces, `}(`, its argument, `)$`; everything else is unchanged. |
| `FlatLogarithms.UnchangedIffNoCall` | frontend/src/lib/markdown/renderer.tsx:89-94 | A text stays as it is if and only if it contains no call. |
| `FlatLogarithmsTwice.TwiceIsOnceIff` | frontend/src/lib/markdown/renderer.tsx:89-94 | Rewriting twice is rewriting once if and only if every call of the text, rewritten or begun inside a rewritten one, has a base of nothing but braces. |
| `FlatLogarithmsTwice.HiddenCallMatters` | frontend/src/lib/markdown/renderer.tsx:89-94 | It is not enough that the rewritten calls have such bases: a text for which the output is rewritten again. |
| `FlatLogarithmsTwice.OutputCallsAreHidden` | frontend/src/lib/markdown/renderer.tsx:89-94 | When all rewritten calls have such bases, the output contains a call exactly when a call begins inside a rewritten one. |
| `FlatLogarithms.TwiceDiffers` | frontend/src/lib/markdown/renderer.tsx:89-94 | Rewriting is not idempotent: whenever it rewrote a call whose base is not just braces, it changes its own output. |
| `FlatMath.NormalizeFlatMath` | frontend/src/lib/markdown/renderer.tsx:100-102 | Both rewritings are applied to what is between the protected spans, logarithms first. What that is: `FlatMath.NormalizedIs`. |
| `FlatMath.NormalizedIs` | frontend/src/lib/markdown/renderer.tsx:75-102 | The output has the protected spans as they are, and between them each gap with first its logarithms and then the fractions of the result written as stated above. |
| `FlatMath.ProtectedNotationIsKept` | frontend/src/lib/markdown/renderer.tsx:100-102 | A text whose flat notation is all inside math and code spans is left alone. |
| `DisplayMath.BlocksAreTidied` | frontend/src/lib/markdown/renderer.tsx:37-42 | The output has the gaps and blocks of the input, with exactly the multi-line blocks put on lines of their own. |
| `DisplayMath.BlocksBecome` | frontend/src/lib/markdown/renderer.tsx:37-42 | Exactly the blocks with a line break change: to a line break, their text without surrounding whitespace, a line break. |
| `DisplayMath.NormalizeIdempotent` | frontend/src/lib/markdown/renderer.tsx:37-42 | Normalising is idempotent. |
| `DisplayMath.NormalizeKeepsInk` | frontend/src/lib/markdown/renderer.tsx:37-42 | The sequence of non-whitespace characters is preserved. |
| `ProtectedSpans.BetweenIff` | frontend/src/lib/markdown/renderer.tsx:76 | A lazy span ends at the first closing mark. |
| `ProtectedSpans.InLineIff` | frontend/src/lib/markdown/renderer.tsx:76 | An inline span runs to the next mark on the same line. |
| `ProtectedSpans.SpanEndIff` | frontend/src/lib/markdown/renderer.tsx:76 | What the pattern matches at a place: display math; failing that inline math; failing both fenced code; inline code last. |
| `ProtectedSpans.EveryMatchIsCovered` | frontend/src/lib/markdown/renderer.tsx:76-84 | No place where a span can start is left outside the protected ones. |
| `ProtectedSpans.TransformOutsideMathAndCode` | frontend/src/lib/markdown/renderer.tsx:75-87 | The walk transforms what is between the spans and copies the spans. |
| `ProtectedSpans.IdentityIsLossless` | frontend/src/lib/markdown/renderer.tsx:75-87 | With the identity transform it returns its input. |
| `ProtectedSpans.SpansSurvive` | frontend/src/lib/markdown/renderer.tsx:75-87 | With any transform every span stands verbatim in the output, in order, without overlaps. |
| `Quota.StepKeepsBound` | src/ucenik/core/quota.py:49-91 | Every check, record or failure keeps used + pending * T within max - 1 + n * T. |
| `Quota.UsageBounded` | src/ucenik/core/quota.py:49-91 | With at most n calls pending and at most T tokens a call, usage never exceeds max - 1 + n * T, and is 0 for a limit of 0. |
| `Quota.BoundIsReached` | src/ucenik/core/quota.py:49-91 | Some run within these assumptions ends with exactly that usage. |
| `QuotaService.QuotaStore.CheckQuota` | src/ucenik/core/quota.py:49-70 | The check compares the stored total with the limit and reserves nothing. |
| `QuotaService.QuotaStore.RecordUsage` | src/ucenik/core/quota.py:73-91 | Recording adds to one user's total only and returns the new total. |

## Left out

- HTTP routing, authentication, request and response shapes, React components, deployment: plumbing without a property
  that spans functions.
- BM25 scoring, embeddings, the vector index, chunking, text extraction: their results are arbitrary inputs.
- Prompt texts and the detector of suspicious phrases.
- Deleting a lecture or document while a job on it runs, crashes between two steps, failing publish calls, a client that
  disconnects or aborts a running turn.
- Expiry of cached answers and embeddings, the change of day of the quota, eviction: one day, nothing expires. Expiry only
  turns hits into misses.
- The instant of expiry: a rate-limit counter counts as gone from its expiry time on.
- INCR and EXPIRE of the rate limiter are one step; a crash between them is not modelled.
- JSON numbers other than integers, and integers beyond the exact range of a browser's numbers.
- Lower-casing that depends on neighbouring characters: lower-casing is a function of single characters.
- Collisions of the hash in an answer's key and in an embedding's key: the model keys by the hashed text itself.
- Object storage keyed by SHA-256: the hash is an arbitrary function, so two contents may share a key there.
- Line ends other than a line feed in a provider's stream: the client's lines are an input of the model, and the relay's
  own frames contain line feeds only.
- FlatMath.NormalizeFlatMath: no claim about doing the whole rewriting twice.
- ChatSteps.Next: the content version is read in one step with the key it names; a bump between the two reads has the effect
  of one after them. A session's row is saved whether or not it is still there, as the document mapper does.
- Session titles made by the model; making and removing single enrollments.
- Events whose JSON lacks the declared type: the browser model reads typed events.
- PlannerSafety.RunKeeps: one lecture that is not deleted; operations on other lectures do not touch its rows.
- CorpusCacheSafety.QuietHitIsCurrent: one subject, any number of processes; `delete_subject` bumps no version and is not a
  writer here.
- Ingest.PublishReplacesOwnChunks: `Publish` assumes the upsert succeeds; the model refuses an upsert with a missing vector,
  after the old chunks are gone.
- IngestService.Ingester.IngestDocument: the four kinds of message a user may see are distinguished, their wording is not.
- DocumentService.Library.InsertDocument: a delete between the failed insert and the second search, which makes the source
  raise an error, is not modelled.
- Breaker.AttemptsBounded: stated for calls made one after the other; concurrent calls after the cooldown are all let
  through.
- Rounding of fusion scores: the model computes with exact rationals.
