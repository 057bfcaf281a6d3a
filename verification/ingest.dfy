/** Turning one document into searchable chunks: what an ingest stores, caches and charges. */
module Ingest {
  import opened Common
  import opened Text
  import opened DocumentStore

  datatype Context = Context(content: string, tokens: nat)

  /** What the outside answers during one ingest: the chunk texts (None when the file cannot be fetched or read, for
      want of readable text if `unreadable`), the context generated for each chunk (None when that fails), and the
      embedding service (None when it fails). */
  datatype Input<!V> = Input(chunks: Option<seq<string>>, unreadable: bool, contexts: nat -> Option<Context>,
                             embed: seq<string> -> Option<seq<V>>, maxQuota: nat)

  function Used(used: map<string, nat>, user: string): nat {
    if user in used then used[user] else 0
  }

  ghost predicate OthersKept(used: map<string, nat>, used': map<string, nat>, user: string) {
    forall other :: other != user ==> Used(used', other) == Used(used, other)
  }

  ghost predicate EndsWith(text: string, end: string) {
    |text| >= |end| && text[|text| - |end|..] == end
  }

  /** The text that is embedded and stored: the context, if there is any, and then the chunk itself. */
  function ApplyContext(context: string, chunk: string): string {
    var c := Strip(context, PySpace);
    if c == [] then chunk else c + "\n\n" + chunk
  }

  // ---- First pass: which chunks need work, and how far the quota and the model carry. ----

  /** The chunks without a cached vector, in order. */
  function Misses<V>(chunks: seq<string>, cache: map<string, V>): (misses: seq<nat>)
    ensures forall k :: 0 <= k < |misses| ==> misses[k] < |chunks|
  {
    if chunks == [] then []
    else
      var last := |chunks| - 1;
      Misses(chunks[..last], cache) + (if chunks[last] in cache then [] else [last])
  }

  ghost predicate Increasing(s: seq<nat>) {
    forall j, k :: 0 <= j < k < |s| ==> s[j] < s[k]
  }

  lemma {:induction false} MissesInOrder<V>(chunks: seq<string>, cache: map<string, V>)
    ensures Increasing(Misses(chunks, cache))
    ensures forall k :: 0 <= k < |Misses(chunks, cache)| ==> chunks[Misses(chunks, cache)[k]] !in cache
    decreases |chunks|
  {
    if chunks != [] {
      var last := |chunks| - 1;
      var before := Misses(chunks[..last], cache);
      MissesInOrder(chunks[..last], cache);
      assert Misses(chunks, cache) == before + (if chunks[last] in cache then [] else [last]);
      assert forall k :: 0 <= k < |before| ==> before[k] < last && chunks[..last][before[k]] == chunks[before[k]];
    }
  }

  lemma {:induction false} MissIsListed<V>(chunks: seq<string>, cache: map<string, V>, i: nat)
    requires i < |chunks| && chunks[i] !in cache
    ensures i in Misses(chunks, cache)
    decreases |chunks|
  {
    var last := |chunks| - 1;
    if i < last {
      MissIsListed(chunks[..last], cache, i);
    } else {
      assert Misses(chunks, cache)[|Misses(chunks, cache)| - 1] == last;
    }
  }

  function Spent(contexts: nat -> Option<Context>, misses: seq<nat>): nat {
    if misses == [] then 0
    else
      var last := |misses| - 1;
      Spent(contexts, misses[..last])
          + (if contexts(misses[last]).Some? then contexts(misses[last]).value.tokens else 0)
  }

  /** What is spent is the sum of the tokens, miss by miss: on two lots of misses what is spent on each. */
  lemma {:induction false} SpentIsSum(contexts: nat -> Option<Context>, a: seq<nat>, b: seq<nat>)
    ensures Spent(contexts, a + b) == Spent(contexts, a) + Spent(contexts, b)
    ensures forall i: nat :: contexts(i).Some? ==> Spent(contexts, [i]) == contexts(i).value.tokens
    decreases |b|
  {
    forall i: nat
      ensures contexts(i).Some? ==> Spent(contexts, [i]) == contexts(i).value.tokens
    {
      assert [i][..0] == [];
    }
    if b == [] {
      assert a + b == a;
    } else {
      var last := |b| - 1;
      assert (a + b)[..|a + b| - 1] == a + b[..last];
      SpentIsSum(contexts, a, b[..last]);
    }
  }

  /** Miss number `k` goes through: the user is below the limit after the misses before it, and a context comes back. */
  predicate Served<V>(input: Input<V>, used: nat, misses: seq<nat>, k: nat)
    requires k < |misses|
  {
    used + Spent(input.contexts, misses[..k]) < input.maxQuota && input.contexts(misses[k]).Some?
  }

  ghost predicate AllServed<V>(input: Input<V>, used: nat, misses: seq<nat>) {
    forall k :: 0 <= k < |misses| ==> Served(input, used, misses, k)
  }

  /** How many misses go through before the first that does not. */
  function Reach<V>(input: Input<V>, used: nat, misses: seq<nat>, k: nat): (n: nat)
    requires k <= |misses|
    ensures k <= n <= |misses|
    ensures forall j :: k <= j < n ==> Served(input, used, misses, j)
    ensures n < |misses| ==> !Served(input, used, misses, n)
    decreases |misses| - k
  {
    if k == |misses| || !Served(input, used, misses, k) then k else Reach(input, used, misses, k + 1)
  }

  function FinalText<V>(input: Input<V>, cache: map<string, V>, chunks: seq<string>, i: nat): string
    requires i < |chunks|
  {
    if chunks[i] in cache || input.contexts(i).None? then chunks[i]
    else ApplyContext(input.contexts(i).value.content, chunks[i])
  }

  /** Whatever context is put before it, every stored text ends with the chunk itself, and is the bare chunk exactly
      when its vector was cached or its context is blank. */
  lemma TextEndsWithChunk<V>(input: Input<V>, cache: map<string, V>, chunks: seq<string>, i: nat)
    requires i < |chunks|
    ensures EndsWith(FinalText(input, cache, chunks, i), chunks[i])
    ensures input.contexts(i).Some? ==>
              (FinalText(input, cache, chunks, i) == chunks[i]
               <==> chunks[i] in cache || Strip(input.contexts(i).value.content, PySpace) == [])
  {
    if chunks[i] !in cache && input.contexts(i).Some? {
      var c := Strip(input.contexts(i).value.content, PySpace);
      if c != [] {
        assert |FinalText(input, cache, chunks, i)| == |c| + 2 + |chunks[i]|;
      }
    }
  }

  /** `c` is the context without the whitespace around it. */
  ghost predicate Trimmed(context: string, c: string) {
    && (exists before: string, after: string ::
          context == before + c + after && AllSpace(before, PySpace) && AllSpace(after, PySpace))
    && (c != [] ==> !PySpace(c[0]) && !PySpace(c[|c| - 1]))
  }

  /** The text is the context without the whitespace around it, a blank line, and the chunk; only the chunk when nothing
      is left of the context. */
  ghost predicate ContextThenChunk(text: string, context: string, chunk: string) {
    exists c: string ::
      && Trimmed(context, c)
      && if c == [] then text == chunk
         else
           && |text| == |c| + 2 + |chunk| && text[..|c|] == c
           && text[|c|] == '\n' && text[|c| + 1] == '\n' && text[|c| + 2..] == chunk
  }

  lemma AppliedContext(context: string, chunk: string)
    ensures ContextThenChunk(ApplyContext(context, chunk), context, chunk)
  {
    var c, text := Strip(context, PySpace), ApplyContext(context, chunk);
    var before, after := StripCutsEnds(context, PySpace);
    assert Trimmed(context, c);
    if c != [] {
      assert text == c + "\n\n" + chunk;
      assert text[..|c|] == c && text[|c| + 2..] == chunk;
    }
  }

  /** The text of a chunk whose vector was not cached carries the chunk's own context. */
  lemma MissTextIs<V>(input: Input<V>, cache: map<string, V>, chunks: seq<string>, i: nat)
    requires i < |chunks| && chunks[i] !in cache && input.contexts(i).Some?
    ensures ContextThenChunk(FinalText(input, cache, chunks, i), input.contexts(i).value.content, chunks[i])
  {
    AppliedContext(input.contexts(i).value.content, chunks[i]);
  }

  function MissTexts<V>(input: Input<V>, cache: map<string, V>, chunks: seq<string>,
                        misses: seq<nat>): (texts: seq<string>)
    requires forall k :: 0 <= k < |misses| ==> misses[k] < |chunks|
    ensures |texts| == |misses| && forall k :: 0 <= k < |misses| ==>
              texts[k] == FinalText(input, cache, chunks, misses[k])
  {
    if misses == [] then []
    else
      var last := |misses| - 1;
      MissTexts(input, cache, chunks, misses[..last]) + [FinalText(input, cache, chunks, misses[last])]
  }

  /** The misses of a prefix come first, and the next chunk, if it is a miss, is next. */
  lemma {:induction false} MissesPrefix<V>(chunks: seq<string>, cache: map<string, V>, i: nat)
    requires i < |chunks| && chunks[i] !in cache
    ensures var all, misses := Misses(chunks, cache), Misses(chunks[..i], cache);
            misses + [i] <= all
    decreases |chunks|
  {
    var last := |chunks| - 1;
    if i < last {
      MissesPrefix(chunks[..last], cache, i);
      assert chunks[..last][..i] == chunks[..i];
    }
  }

  /** A prefix of served misses followed by one that is not is exactly what is reached. */
  lemma BlockedHere<V>(input: Input<V>, used: nat, all: seq<nat>, misses: seq<nat>, i: nat)
    requires misses + [i] <= all && AllServed(input, used, misses)
    requires !(used + Spent(input.contexts, misses) < input.maxQuota && input.contexts(i).Some?)
    ensures Reach(input, used, all, 0) == |misses| && all[..|misses|] == misses
  {
    var n := |misses|;
    assert (misses + [i])[n] == i && all[..n] == misses;
    forall k: nat | k < n
      ensures Served(input, used, all, k)
    {
      assert all[..k] == misses[..k];
      assert Served(input, used, misses, k);
    }
    assert !Served(input, used, all, n);
  }

  lemma AllReached<V>(input: Input<V>, used: nat, misses: seq<nat>)
    requires AllServed(input, used, misses)
    ensures Reach(input, used, misses, 0) == |misses| && misses[..|misses|] == misses
  {
  }

  lemma ServedMore<V>(input: Input<V>, used: nat, misses: seq<nat>, i: nat)
    requires AllServed(input, used, misses)
    requires used + Spent(input.contexts, misses) < input.maxQuota && input.contexts(i).Some?
    ensures AllServed(input, used, misses + [i])
    ensures Spent(input.contexts, misses + [i]) == Spent(input.contexts, misses) + input.contexts(i).value.tokens
  {
    var more := misses + [i];
    assert more[..|misses|] == misses;
    forall k: nat | k < |misses|
      ensures Served(input, used, more, k)
    {
      assert more[..k] == misses[..k];
      assert Served(input, used, misses, k);
    }
  }

  /** What one more chunk adds to each list. */
  lemma NextChunk<V>(input: Input<V>, cache: map<string, V>, chunks: seq<string>, i: nat)
    requires i < |chunks|
    ensures FinalTexts(input, cache, chunks, i + 1)
            == FinalTexts(input, cache, chunks, i) + [FinalText(input, cache, chunks, i)]
    ensures EmptySlots(chunks[..i + 1], cache) ==
            EmptySlots(chunks[..i], cache) + [if chunks[i] in cache then Some(cache[chunks[i]]) else None]
    ensures Misses(chunks[..i + 1], cache)
            == if chunks[i] in cache then Misses(chunks[..i], cache) else Misses(chunks[..i], cache) + [i]
  {
    assert chunks[..i + 1][..i] == chunks[..i] && chunks[..i + 1][i] == chunks[i];
  }

  // ---- Second pass: vectors. ----

  /** The slot of chunk `i`: its cached vector, or the fresh one at its place among the misses. */
  ghost predicate SlotOk<V(!new)>(chunks: seq<string>, cache: map<string, V>, misses: seq<nat>, vectors: seq<V>,
                                  i: nat, v: V)
    requires i < |chunks|
  {
    if chunks[i] in cache then v == cache[chunks[i]]
    else exists k :: 0 <= k < |misses| && k < |vectors| && misses[k] == i && v == vectors[k]
  }

  /** Writes the fresh vectors into their slots, pairing misses and vectors up to the shorter of the two. */
  function Filled<V>(slots: seq<Option<V>>, misses: seq<nat>, vectors: seq<V>): (r: seq<Option<V>>)
    requires forall k :: 0 <= k < |misses| ==> misses[k] < |slots|
    ensures |r| == |slots|
    decreases |misses|
  {
    if misses == [] || vectors == [] then slots
    else Filled(slots[misses[0] := Some(vectors[0])], misses[1..], vectors[1..])
  }

  /** The embedding cache after the first `n` pairs of misses and vectors. */
  function Cached<V>(chunks: seq<string>, cache: map<string, V>, misses: seq<nat>, vectors: seq<V>,
                     n: nat): map<string, V>
    requires n <= |misses| && n <= |vectors| && forall k :: 0 <= k < |misses| ==> misses[k] < |chunks|
  {
    if n == 0 then cache else Cached(chunks, cache, misses, vectors, n - 1)[chunks[misses[n - 1]] := vectors[n - 1]]
  }

  function Pairs(misses: seq<nat>, vectorCount: nat): nat {
    if |misses| <= vectorCount then |misses| else vectorCount
  }

  function EmptySlots<V>(chunks: seq<string>, cache: map<string, V>): (slots: seq<Option<V>>)
    ensures |slots| == |chunks|
    ensures forall i :: 0 <= i < |chunks| ==> slots[i] == if chunks[i] in cache then Some(cache[chunks[i]]) else None
  {
    if chunks == [] then []
    else
      var last := |chunks| - 1;
      EmptySlots(chunks[..last], cache) + [if chunks[last] in cache then Some(cache[chunks[last]]) else None]
  }

  predicate AllFilled<V>(slots: seq<Option<V>>) {
    forall i :: 0 <= i < |slots| ==> slots[i].Some?
  }

  lemma {:induction false} FilledSlots<V>(slots: seq<Option<V>>, misses: seq<nat>, vectors: seq<V>)
    requires forall k :: 0 <= k < |misses| ==> misses[k] < |slots|
    requires Increasing(misses)
    ensures var r := Filled(slots, misses, vectors);
            && (forall i: nat :: i < |slots| && i !in misses ==> r[i] == slots[i])
            && forall k :: 0 <= k < |misses| ==>
                  r[misses[k]] == if k < |vectors| then Some(vectors[k]) else slots[misses[k]]
    decreases |misses|
  {
    if misses != [] && vectors != [] {
      var slots', misses', vectors' := slots[misses[0] := Some(vectors[0])], misses[1..], vectors[1..];
      FilledSlots(slots', misses', vectors');
      var r := Filled(slots', misses', vectors');
      assert forall k :: 0 < k < |misses| ==> misses[k] == misses'[k - 1] && misses[k] != misses[0];
      assert misses[0] !in misses';
      forall k | 0 <= k < |misses|
        ensures r[misses[k]] == if k < |vectors| then Some(vectors[k]) else slots[misses[k]]
      {
        if k > 0 {
          assert r[misses'[k - 1]] == if k - 1 < |vectors'| then Some(vectors'[k - 1]) else slots'[misses'[k - 1]];
        }
      }
      forall i: nat | i < |slots| && i !in misses
        ensures r[i] == slots[i]
      {
        assert i !in misses' && i != misses[0];
      }
    }
  }

  /** Every slot is filled exactly when at least as many vectors come back as there were misses, and then each
      holds the cached vector of its chunk or the fresh vector of its own text. */
  lemma EverySlotFilledIff<V(!new)>(chunks: seq<string>, cache: map<string, V>, vectors: seq<V>)
    ensures var misses := Misses(chunks, cache);
            var slots := Filled(EmptySlots(chunks, cache), misses, vectors);
            && (AllFilled(slots) <==> |vectors| >= |misses|)
            && (AllFilled(slots) ==> forall i: nat :: i < |chunks| ==>
                  SlotOk(chunks, cache, misses, vectors, i, slots[i].value))
  {
    var misses, empty := Misses(chunks, cache), EmptySlots(chunks, cache);
    var slots := Filled(empty, misses, vectors);
    MissesInOrder(chunks, cache);
    FilledSlots(empty, misses, vectors);
    if |vectors| < |misses| {
      assert slots[misses[|vectors|]] == None;
    } else {
      forall i: nat | i < |chunks|
        ensures slots[i].Some? && SlotOk(chunks, cache, misses, vectors, i, slots[i].value)
      {
        if chunks[i] !in cache {
          MissIsListed(chunks, cache, i);
        }
        SlotIsFilled(chunks, cache, vectors, misses, empty, slots, i);
      }
    }
  }

  lemma SlotIsFilled<V(!new)>(chunks: seq<string>, cache: map<string, V>, vectors: seq<V>, misses: seq<nat>,
                              empty: seq<Option<V>>, slots: seq<Option<V>>, i: nat)
    requires i < |chunks| == |empty| == |slots| && |vectors| >= |misses|
    requires forall k :: 0 <= k < |misses| ==>
               misses[k] < |chunks| && chunks[misses[k]] !in cache && slots[misses[k]] == Some(vectors[k])
    requires chunks[i] !in cache ==> i in misses
    requires empty[i] == if chunks[i] in cache then Some(cache[chunks[i]]) else None
    requires i !in misses ==> slots[i] == empty[i]
    ensures slots[i].Some? && SlotOk(chunks, cache, misses, vectors, i, slots[i].value)
  {
    if i in misses {
      var k :| 0 <= k < |misses| && misses[k] == i;
      assert slots[misses[k]] == Some(vectors[k]);
    }
  }

  // ---- The whole ingest. ----

  function Values<V>(slots: seq<Option<V>>): (values: seq<V>)
    requires AllFilled(slots)
    ensures |values| == |slots| && forall i :: 0 <= i < |slots| ==> slots[i] == Some(values[i])
  {
    if slots == [] then [] else Values(slots[..|slots| - 1]) + [slots[|slots| - 1].value]
  }

  function NewChunks<V>(id: string, filename: string, texts: seq<string>, vectors: seq<V>)
    : (chunks: map<ChunkId, Chunk<V>>)
    requires |texts| == |vectors|
    ensures forall c :: c in chunks <==> c.documentId == id && c.index < |texts|
    ensures forall c :: c in chunks ==> chunks[c] == Chunk(id, c.index, filename, texts[c.index], vectors[c.index])
  {
    if texts == [] then map[]
    else
      var last := |texts| - 1;
      NewChunks(id, filename, texts[..last], vectors[..last])
      [ChunkId(id, last) := Chunk(id, last, filename, texts[last], vectors[last])]
  }

  function FinalTexts<V>(input: Input<V>, cache: map<string, V>, chunks: seq<string>, n: nat): (texts: seq<string>)
    requires n <= |chunks|
    ensures |texts| == n && forall i :: 0 <= i < n ==> texts[i] == FinalText(input, cache, chunks, i)
  {
    if n == 0 then [] else FinalTexts(input, cache, chunks, n - 1) + [FinalText(input, cache, chunks, n - 1)]
  }

  /** How an ingest ends: without chunks, at a miss that does not go through, without an answer from the embedding
      service, with too few vectors, or with a text and a vector for every chunk. */
  datatype Ending<V> =
    | NoChunks(problem: Problem)
    | Interrupted(problem: Problem)
    | NotEmbedded
    | Incomplete
    | Complete(texts: seq<string>, vectors: seq<V>)

  /** What a missing text is reported as. */
  function NoText<V>(input: Input<V>): Problem {
    if input.chunks.None? && input.unreadable then NoReadableText else Unexpected
  }

  /** What stops the ingest at miss number `k`: the quota, which is checked first, or the model. */
  function Blocked<V>(input: Input<V>, used: nat, misses: seq<nat>, k: nat): Problem
    requires k < |misses|
  {
    if used + Spent(input.contexts, misses[..k]) >= input.maxQuota then QuotaReached else ServiceUnavailable
  }

  /** The first pass stops at chunk `i`: a miss at which the quota is reached or no context comes back. */
  lemma StopsHere<V>(input: Input<V>, used: nat, chunks: seq<string>, cache: map<string, V>, i: nat)
    requires i < |chunks| && chunks[i] !in cache && AllServed(input, used, Misses(chunks[..i], cache))
    requires used + Spent(input.contexts, Misses(chunks[..i], cache)) >= input.maxQuota || input.contexts(i).None?
    ensures var all, misses := Misses(chunks, cache), Misses(chunks[..i], cache);
            && |misses| < |all| && Reach(input, used, all, 0) == |misses| && all[..|misses|] == misses
            && Blocked(input, used, all, |misses|) ==
               if used + Spent(input.contexts, misses) >= input.maxQuota then QuotaReached else ServiceUnavailable
  {
    MissesPrefix(chunks, cache, i);
    BlockedHere(input, used, Misses(chunks, cache), Misses(chunks[..i], cache), i);
  }

  /** Where the first pass is after `i` chunks, all misses so far having gone through. */
  ghost predicate Progress<V>(input: Input<V>, used: nat, chunks: seq<string>, cache: map<string, V>, i: nat,
                              texts: seq<string>, slots: seq<Option<V>>, misses: seq<nat>) {
    && i <= |chunks| && texts == FinalTexts(input, cache, chunks, i) && slots == EmptySlots(chunks[..i], cache)
    && misses == Misses(chunks[..i], cache) && AllServed(input, used, misses)
  }

  lemma ProgressHit<V>(input: Input<V>, used: nat, chunks: seq<string>, cache: map<string, V>, i: nat,
                       texts: seq<string>, slots: seq<Option<V>>, misses: seq<nat>)
    requires Progress(input, used, chunks, cache, i, texts, slots, misses) && i < |chunks| && chunks[i] in cache
    ensures Progress(input, used, chunks, cache, i + 1, texts + [chunks[i]], slots + [Some(cache[chunks[i]])], misses)
  {
    NextChunk(input, cache, chunks, i);
  }

  lemma ProgressMiss<V>(input: Input<V>, used: nat, chunks: seq<string>, cache: map<string, V>, i: nat,
                        texts: seq<string>, slots: seq<Option<V>>, misses: seq<nat>)
    requires Progress(input, used, chunks, cache, i, texts, slots, misses) && i < |chunks| && chunks[i] !in cache
    requires used + Spent(input.contexts, misses) < input.maxQuota && input.contexts(i).Some?
    ensures Progress(input, used, chunks, cache, i + 1,
                     texts + [ApplyContext(input.contexts(i).value.content, chunks[i])],
                     slots + [None], misses + [i])
    ensures Spent(input.contexts, misses + [i]) == Spent(input.contexts, misses) + input.contexts(i).value.tokens
  {
    NextChunk(input, cache, chunks, i);
    ServedMore(input, used, misses, i);
  }

  lemma ProgressDone<V>(input: Input<V>, used: nat, chunks: seq<string>, cache: map<string, V>,
                        texts: seq<string>, slots: seq<Option<V>>, misses: seq<nat>)
    requires Progress(input, used, chunks, cache, |chunks|, texts, slots, misses)
    ensures texts == FinalTexts(input, cache, chunks, |chunks|) && slots == EmptySlots(chunks, cache)
    ensures misses == Misses(chunks, cache) && Reach(input, used, misses, 0) == |misses| && misses[..|misses|] == misses
  {
    assert chunks[..|chunks|] == chunks;
    AllReached(input, used, misses);
  }

  /** The embedding service is only asked when something missed the cache. */
  function Embedded<V>(input: Input<V>, cache: map<string, V>, chunks: seq<string>): Option<seq<V>> {
    var misses := Misses(chunks, cache);
    if misses == [] then Some([]) else input.embed(MissTexts(input, cache, chunks, misses))
  }

  /** How an ingest goes on once every miss has its context. */
  function EndingWith<V>(input: Input<V>, cache: map<string, V>): (e: Ending<V>)
    requires input.chunks.Some?
    ensures e.Complete? ==> |e.texts| == |e.vectors|
  {
    var chunks := input.chunks.value;
    var vectors := Embedded(input, cache, chunks);
    if vectors.None? then NotEmbedded
    else
      var slots := Filled(EmptySlots(chunks, cache), Misses(chunks, cache), vectors.value);
      if AllFilled(slots) then Complete(FinalTexts(input, cache, chunks, |chunks|), Values(slots)) else Incomplete
  }

  function EndingOf<V>(input: Input<V>, cache: map<string, V>, used: nat): (e: Ending<V>)
    ensures e.Complete? ==> |e.texts| == |e.vectors|
  {
    if input.chunks.None? || input.chunks.value == [] then NoChunks(NoText(input))
    else
      var misses := Misses(input.chunks.value, cache);
      var reach := Reach(input, used, misses, 0);
      if reach < |misses| then Interrupted(Blocked(input, used, misses, reach)) else EndingWith(input, cache)
  }

  function Charged<V>(input: Input<V>, cache: map<string, V>, used: nat): nat {
    if input.chunks.None? then 0
    else
      var misses := Misses(input.chunks.value, cache);
      Spent(input.contexts, misses[..Reach(input, used, misses, 0)])
  }

  function Dropped<V>(s: Store<V>, id: string): Store<V>
    requires id in s.documents
  {
    var subject := s.documents[id].subject;
    s.(collections := s.collections[subject := WithoutChunks(Collection(s, subject), id)])
  }

  function Upserted<V>(s: Store<V>, subject: string, added: map<ChunkId, Chunk<V>>): Store<V> {
    s.(collections := s.collections[subject := Collection(s, subject) + added])
  }

  function Saved<V>(s: Store<V>, id: string, d: Document): Store<V> {
    s.(documents := s.documents[id := d])
  }

  /** Replaces the document's chunks, bumps the subject's version, marks the document ready. */
  function Publish<V>(s: Store<V>, id: string, texts: seq<string>, vectors: seq<V>): Store<V>
    requires id in s.documents && |texts| == |vectors|
  {
    var d := s.documents[id];
    var upserted := Upserted(Dropped(s, id), d.subject, NewChunks(id, d.filename, texts, vectors));
    Saved(Bumped(upserted, d.subject), id, d.(status := Ready, chunkCount := |texts|, error := None))
  }

  /** The status the job had set before makes no difference. */
  lemma PublishAfterSave<V>(s: Store<V>, id: string, d: Document, texts: seq<string>, vectors: seq<V>)
    requires id in s.documents && |texts| == |vectors| && s.documents[id].(status := d.status) == d
    ensures Publish(Saved(s, id, d), id, texts, vectors) == Publish(s, id, texts, vectors)
  {
    var ready := d.(status := Ready, chunkCount := |texts|, error := None);
    assert s.documents[id := d][id := ready] == s.documents[id := ready];
    assert Collection(Saved(s, id, d), d.subject) == Collection(s, d.subject);
  }

  function MarkFailed<V>(s: Store<V>, id: string, problem: Problem): Store<V>
    requires id in s.documents
  {
    s.(documents := s.documents[id := s.documents[id].(status := Failed, error := Some(problem))])
  }

  /** What an ending is reported as. */
  function ProblemOf<V>(e: Ending<V>): Option<Problem> {
    match e
    case Complete(_, _) => None
    case Incomplete => Some(Unexpected)
    case NotEmbedded => Some(ServiceUnavailable)
    case NoChunks(problem) => Some(problem)
    case Interrupted(problem) => Some(problem)
  }

  /** The store when the work is over, before a failure is noted. */
  function Worked<V>(s: Store<V>, id: string, e: Ending<V>): (s': Store<V>)
    requires id in s.documents && (e.Complete? ==> |e.texts| == |e.vectors|)
    ensures id in s'.documents
  {
    if e.Complete? then Publish(s, id, e.texts, e.vectors) else if e.Incomplete? then Dropped(s, id) else s
  }

  function StoreAfter<V>(s: Store<V>, id: string, e: Ending<V>): Store<V>
    requires id in s.documents && (e.Complete? ==> |e.texts| == |e.vectors|)
  {
    var problem := ProblemOf(e);
    if problem.None? then Worked(s, id, e) else MarkFailed(Worked(s, id, e), id, problem.value)
  }

  /** The status the job has set before makes no difference. */
  lemma WorkAfterSave<V>(s: Store<V>, id: string, d: Document, e: Ending<V>)
    requires id in s.documents && s.documents[id].(status := d.status) == d
             && (e.Complete? ==> |e.texts| == |e.vectors|)
    ensures var worked, problem := Worked(Saved(s, id, d), id, e), ProblemOf(e);
            if problem.None? then worked == StoreAfter(s, id, e)
            else Saved(worked, id, d.(status := Failed, error := problem)) == StoreAfter(s, id, e)
  {
    if e.Complete? {
      PublishAfterSave(s, id, d, e.texts, e.vectors);
    } else {
      FailInSteps(s, id, d, ProblemOf(e).value);
    }
  }

  lemma FailInSteps<V>(s: Store<V>, id: string, d: Document, problem: Problem)
    requires id in s.documents && s.documents[id].(status := d.status) == d
    ensures var failed := d.(status := Failed, error := Some(problem));
            && Saved(Saved(s, id, d), id, failed) == MarkFailed(s, id, problem)
            && Saved(Dropped(Saved(s, id, d), id), id, failed) == MarkFailed(Dropped(s, id), id, problem)
  {
    var failed := d.(status := Failed, error := Some(problem));
    assert s.documents[id := d][id := failed] == s.documents[id := failed];
  }

  function CacheAfter<V>(input: Input<V>, cache: map<string, V>, e: Ending<V>): map<string, V> {
    if (e.Complete? || e.Incomplete?) && input.chunks.Some? && Embedded(input, cache, input.chunks.value).Some? then
      var chunks, vectors := input.chunks.value, Embedded(input, cache, input.chunks.value).value;
      var misses := Misses(chunks, cache);
      Cached(chunks, cache, misses, vectors, Pairs(misses, |vectors|))
    else cache
  }

  lemma NotEmbeddedEnds<V>(input: Input<V>, cache: map<string, V>)
    requires input.chunks.Some? && Embedded(input, cache, input.chunks.value).None?
    ensures EndingWith(input, cache) == NotEmbedded && CacheAfter(input, cache, NotEmbedded) == cache
  {
  }

  /** Once the misses are embedded, the ending depends on whether every slot is filled. */
  lemma EmbeddedEnds<V>(input: Input<V>, cache: map<string, V>, slots: seq<Option<V>>)
    requires input.chunks.Some? && Embedded(input, cache, input.chunks.value).Some?
    requires var chunks, vectors := input.chunks.value, Embedded(input, cache, input.chunks.value).value;
             slots == Filled(EmptySlots(chunks, cache), Misses(chunks, cache), vectors)
    ensures var e := EndingWith(input, cache);
            && e == (if AllFilled(slots) then
                       Complete(FinalTexts(input, cache, input.chunks.value, |input.chunks.value|), Values(slots))
                     else Incomplete)
            && var chunks, vectors := input.chunks.value, Embedded(input, cache, input.chunks.value).value;
               CacheAfter(input, cache, e)
               == Cached(chunks, cache, Misses(chunks, cache), vectors, Pairs(Misses(chunks, cache), |vectors|))
    ensures |slots| == |input.chunks.value|
  {
  }

  lemma EmbeddedWorks<V>(s: Store<V>, id: string, texts: seq<string>, slots: seq<Option<V>>, e: Ending<V>)
    requires id in s.documents && |texts| == |slots|
    requires e == if AllFilled(slots) then Complete(texts, Values(slots)) else Incomplete
    ensures ProblemOf(e) == (if AllFilled(slots) then None else Some(Unexpected))
    ensures Worked(s, id, e) == (if AllFilled(slots) then Publish(s, id, texts, Values(slots)) else Dropped(s, id))
  {
  }

  /** An ingest is complete exactly when there are chunks, every miss goes through, and the embedding service, if
      needed, answers with enough vectors. */
  lemma CompleteIff<V(!new)>(input: Input<V>, cache: map<string, V>, used: nat)
    ensures EndingOf(input, cache, used).Complete? <==>
            && input.chunks.Some? && input.chunks.value != []
            && (forall k: nat :: k < |Misses(input.chunks.value, cache)| ==>
                  Served(input, used, Misses(input.chunks.value, cache), k))
            && Embedded(input, cache, input.chunks.value).Some?
            && |Embedded(input, cache, input.chunks.value).value| >= |Misses(input.chunks.value, cache)|
  {
    if input.chunks.Some? && input.chunks.value != [] {
      var chunks := input.chunks.value;
      var misses := Misses(chunks, cache);
      var n := Reach(input, used, misses, 0);
      var vectors := Embedded(input, cache, chunks);
      if vectors.Some? {
        EverySlotFilledIff(chunks, cache, vectors.value);
      }
    }
  }

  /** A complete ingest has for each chunk the bare text if its vector was cached, and else its context followed by the
      text. */
  lemma CompleteTextsAre<V(!new)>(input: Input<V>, cache: map<string, V>, used: nat, i: nat)
    requires EndingOf(input, cache, used).Complete? && i < |input.chunks.value|
    ensures var e, chunks := EndingOf(input, cache, used), input.chunks.value;
            && |e.texts| == |chunks|
            && if chunks[i] in cache then e.texts[i] == chunks[i]
               else input.contexts(i).Some? && ContextThenChunk(e.texts[i], input.contexts(i).value.content, chunks[i])
  {
    var chunks := input.chunks.value;
    if chunks[i] !in cache {
      MissIsListed(chunks, cache, i);
      var misses := Misses(chunks, cache);
      assert Reach(input, used, misses, 0) == |misses|;
      var k :| 0 <= k < |misses| && misses[k] == i;
      assert Served(input, used, misses, k);
      MissTextIs(input, cache, chunks, i);
    }
  }

  /** In a complete ingest each chunk has its own text, and its cached vector or the fresh vector of that text. */
  lemma CompleteHasOwnVectors<V(!new)>(input: Input<V>, cache: map<string, V>, used: nat, i: nat)
    requires EndingOf(input, cache, used).Complete? && i < |input.chunks.value|
    ensures var e, chunks := EndingOf(input, cache, used), input.chunks.value;
            && |e.texts| == |chunks| && e.texts[i] == FinalText(input, cache, chunks, i)
            && (chunks[i] in cache ==> e.vectors[i] == cache[chunks[i]])
            && (chunks[i] !in cache ==>
                  var texts := MissTexts(input, cache, chunks, Misses(chunks, cache));
                  && input.embed(texts).Some?
                  && exists k :: 0 <= k < |texts| && k < |input.embed(texts).value| && texts[k] == e.texts[i]
                                 && Misses(chunks, cache)[k] == i && e.vectors[i] == input.embed(texts).value[k])
  {
    var chunks := input.chunks.value;
    var misses := Misses(chunks, cache);
    var vectors := Embedded(input, cache, chunks);
    EverySlotFilledIff(chunks, cache, vectors.value);
    var slots := Filled(EmptySlots(chunks, cache), misses, vectors.value);
    assert SlotOk(chunks, cache, misses, vectors.value, i, slots[i].value);
    if chunks[i] !in cache {
      var k := MissNumber(input, cache, chunks, misses, vectors.value, i, slots[i].value);
    }
  }

  /** The place of an uncached chunk among the misses, and its text and vector there. */
  lemma MissNumber<V(!new)>(input: Input<V>, cache: map<string, V>, chunks: seq<string>, misses: seq<nat>,
                            vectors: seq<V>,
                            i: nat, v: V) returns (k: nat)
    requires forall j :: 0 <= j < |misses| ==> misses[j] < |chunks|
    requires i < |chunks| && chunks[i] !in cache && SlotOk(chunks, cache, misses, vectors, i, v)
    ensures k < |misses| && k < |vectors| && misses[k] == i && v == vectors[k]
    ensures MissTexts(input, cache, chunks, misses)[k] == FinalText(input, cache, chunks, i)
  {
    k :| 0 <= k < |misses| && k < |vectors| && misses[k] == i && v == vectors[k];
  }

  // ---- What the embedding cache holds afterwards. ----

  /** The last of the first `n` misses whose chunk has this text. */
  function LastMiss(chunks: seq<string>, misses: seq<nat>, n: nat, text: string): (k: Option<nat>)
    requires n <= |misses| && forall j :: 0 <= j < |misses| ==> misses[j] < |chunks|
    ensures k.Some? ==> k.value < n && chunks[misses[k.value]] == text
    ensures forall j :: (if k.Some? then k.value + 1 else 0) <= j < n ==> chunks[misses[j]] != text
  {
    if n == 0 then None
    else if chunks[misses[n - 1]] == text then Some(n - 1)
    else LastMiss(chunks, misses, n - 1, text)
  }

  /** A text's vector is that of its last miss; without one its entry is what it was. */
  lemma {:induction false} CachedIs<V>(chunks: seq<string>, cache: map<string, V>, misses: seq<nat>, vectors: seq<V>,
                                       n: nat, text: string)
    requires n <= |misses| && n <= |vectors| && forall k :: 0 <= k < |misses| ==> misses[k] < |chunks|
    ensures var after, last := Cached(chunks, cache, misses, vectors, n), LastMiss(chunks, misses, n, text);
            if last.Some? then text in after && after[text] == vectors[last.value]
            else (text in after <==> text in cache) && (text in cache ==> after[text] == cache[text])
    decreases n
  {
    if n > 0 {
      CachedIs(chunks, cache, misses, vectors, n - 1, text);
    }
  }

  /** `i` is the last chunk with this text. */
  ghost predicate LastWith(chunks: seq<string>, text: string, i: nat) {
    i < |chunks| && chunks[i] == text && forall j :: i < j < |chunks| ==> chunks[j] != text
  }

  /** After a complete ingest the cache answers for every chunk text: with the vector it had, or with the stored vector
      of the last chunk with that text. All other entries are what they were. */
  lemma CompleteIngestCaches<V(!new)>(input: Input<V>, cache: map<string, V>, used: nat, text: string)
    requires EndingOf(input, cache, used).Complete?
    ensures var e, chunks := EndingOf(input, cache, used), input.chunks.value;
            var after := CacheAfter(input, cache, e);
            && |e.vectors| == |chunks|
            && (text in cache || text !in chunks ==>
                  (text in after <==> text in cache) && (text in cache ==> after[text] == cache[text]))
            && (text !in cache && text in chunks ==>
                  text in after && exists i: nat :: LastWith(chunks, text, i) && after[text] == e.vectors[i])
  {
    var chunks := input.chunks.value;
    var misses := Misses(chunks, cache);
    var vectors := Embedded(input, cache, chunks).value;
    CompleteIff(input, cache, used);
    CachedIs(chunks, cache, misses, vectors, |misses|, text);
    if text !in cache && text in chunks {
      var k := LastMissIsLastChunk(chunks, cache, text);
      VectorOfMiss(input, cache, used, k);
      assert LastWith(chunks, text, misses[k]);
    } else if text !in chunks {
      NoMissOf(chunks, misses, |misses|, text);
    } else {
      CachedIsNoMiss(chunks, cache, |misses|, text);
    }
  }

  lemma NoMissOf(chunks: seq<string>, misses: seq<nat>, n: nat, text: string)
    requires n <= |misses| && (forall j :: 0 <= j < |misses| ==> misses[j] < |chunks|) && text !in chunks
    ensures LastMiss(chunks, misses, n, text).None?
  {
  }

  lemma CachedIsNoMiss<V>(chunks: seq<string>, cache: map<string, V>, n: nat, text: string)
    requires n <= |Misses(chunks, cache)| && text in cache
    ensures LastMiss(chunks, Misses(chunks, cache), n, text).None?
  {
    MissesInOrder(chunks, cache);
  }

  /** Miss number `k` is stored under vector number `k`. */
  lemma VectorOfMiss<V(!new)>(input: Input<V>, cache: map<string, V>, used: nat, k: nat)
    requires EndingOf(input, cache, used).Complete? && k < |Misses(input.chunks.value, cache)|
    ensures var e, chunks := EndingOf(input, cache, used), input.chunks.value;
            && |e.vectors| == |chunks| && Embedded(input, cache, chunks).Some?
            && k < |Embedded(input, cache, chunks).value|
            && e.vectors[Misses(chunks, cache)[k]] == Embedded(input, cache, chunks).value[k]
  {
    var chunks := input.chunks.value;
    var misses := Misses(chunks, cache);
    var vectors := Embedded(input, cache, chunks).value;
    var slots := CompleteSlots(input, cache, used);
    EnoughVectors(chunks, cache, vectors);
    SlotOfMiss(chunks, cache, vectors, k);
  }

  lemma EnoughVectors<V(!new)>(chunks: seq<string>, cache: map<string, V>, vectors: seq<V>)
    requires AllFilled(Filled(EmptySlots(chunks, cache), Misses(chunks, cache), vectors))
    ensures |vectors| >= |Misses(chunks, cache)|
  {
    EverySlotFilledIff(chunks, cache, vectors);
  }

  lemma SlotOfMiss<V>(chunks: seq<string>, cache: map<string, V>, vectors: seq<V>, k: nat)
    requires k < |Misses(chunks, cache)| && k < |vectors|
    ensures var misses := Misses(chunks, cache);
            Filled(EmptySlots(chunks, cache), misses, vectors)[misses[k]] == Some(vectors[k])
  {
    MissesInOrder(chunks, cache);
    FilledSlots(EmptySlots(chunks, cache), Misses(chunks, cache), vectors);
  }

  lemma CompleteSlots<V>(input: Input<V>, cache: map<string, V>, used: nat) returns (slots: seq<Option<V>>)
    requires EndingOf(input, cache, used).Complete?
    ensures input.chunks.Some? && Embedded(input, cache, input.chunks.value).Some?
    ensures slots == Filled(EmptySlots(input.chunks.value, cache), Misses(input.chunks.value, cache),
                            Embedded(input, cache, input.chunks.value).value)
    ensures AllFilled(slots) && EndingOf(input, cache, used).vectors == Values(slots)
  {
    slots := Filled(EmptySlots(input.chunks.value, cache), Misses(input.chunks.value, cache),
                    Embedded(input, cache, input.chunks.value).value);
  }

  lemma LastMissIsLastChunk<V>(chunks: seq<string>, cache: map<string, V>, text: string) returns (k: nat)
    requires text !in cache && text in chunks
    ensures var misses := Misses(chunks, cache);
            k < |misses| && LastMiss(chunks, misses, |misses|, text) == Some(k) && LastWith(chunks, text, misses[k])
  {
    var misses := Misses(chunks, cache);
    MissesInOrder(chunks, cache);
    var i :| 0 <= i < |chunks| && chunks[i] == text;
    MissIsListed(chunks, cache, i);
    var j :| 0 <= j < |misses| && misses[j] == i;
    k := LastMiss(chunks, misses, |misses|, text).value;
    forall i' | 0 <= i' < |chunks| && chunks[i'] == text
      ensures i' <= misses[k]
    {
      MissIsListed(chunks, cache, i');
      var j' :| 0 <= j' < |misses| && misses[j'] == i';
      assert j' <= k;
    }
  }

  lemma {:induction false} NoMisses<V>(chunks: seq<string>, cache: map<string, V>)
    requires forall i :: 0 <= i < |chunks| ==> chunks[i] in cache
    ensures Misses(chunks, cache) == []
    decreases |chunks|
  {
    if chunks != [] {
      NoMisses(chunks[..|chunks| - 1], cache);
    }
  }

  /** When every chunk text is cached, an ingest completes whatever the quota, the model and the embedding service do.
      It charges nothing, leaves the cache alone and stores every chunk bare, without a context, under its cached
      vector. */
  lemma AllCachedIsFree<V(!new)>(input: Input<V>, cache: map<string, V>, used: nat)
    requires input.chunks.Some? && input.chunks.value != []
    requires forall i :: 0 <= i < |input.chunks.value| ==> input.chunks.value[i] in cache
    ensures var e, chunks := EndingOf(input, cache, used), input.chunks.value;
            && e.Complete? && e.texts == chunks && |e.vectors| == |chunks|
            && (forall i :: 0 <= i < |chunks| ==> e.vectors[i] == cache[chunks[i]])
            && Charged(input, cache, used) == 0 && CacheAfter(input, cache, e) == cache
  {
    var chunks := input.chunks.value;
    var e := AllCachedCompletes(input, cache, used);
    forall i: nat | i < |chunks|
      ensures e.texts[i] == chunks[i] && e.vectors[i] == cache[chunks[i]]
    {
      CompleteHasOwnVectors(input, cache, used, i);
    }
  }

  lemma AllCachedCompletes<V(!new)>(input: Input<V>, cache: map<string, V>, used: nat) returns (e: Ending<V>)
    requires input.chunks.Some? && input.chunks.value != []
    requires forall i :: 0 <= i < |input.chunks.value| ==> input.chunks.value[i] in cache
    ensures e == EndingOf(input, cache, used) && e.Complete? && |e.texts| == |e.vectors| == |input.chunks.value|
    ensures Charged(input, cache, used) == 0 && CacheAfter(input, cache, e) == cache
  {
    var chunks := input.chunks.value;
    NoMisses(chunks, cache);
    EverySlotFilledIff(chunks, cache, []);
    e := EndingOf(input, cache, used);
  }

  /** Ingesting the same file a second time charges nothing and drops the contexts the first ingest paid for: every
      chunk is then stored bare, under the vector the last chunk with its text has had. It happens when a file is
      deleted and uploaded again, or uploaded to another subject: the cache is keyed by the text alone. */
  lemma SecondIngestLosesContext<V(!new)>(input: Input<V>, again: Input<V>, cache: map<string, V>, used: nat,
                                          later: nat)
    requires EndingOf(input, cache, used).Complete? && again.chunks == input.chunks
    ensures var after := CacheAfter(input, cache, EndingOf(input, cache, used));
            var e := EndingOf(again, after, later);
            && e.Complete? && Charged(again, after, later) == 0 && CacheAfter(again, after, e) == after
            && e.texts == input.chunks.value
            && forall i :: 0 <= i < |e.texts| ==> e.texts[i] in after && e.vectors[i] == after[e.texts[i]]
  {
    var chunks := input.chunks.value;
    var after := CacheAfter(input, cache, EndingOf(input, cache, used));
    forall i | 0 <= i < |chunks|
      ensures chunks[i] in after
    {
      CompleteIngestCaches(input, cache, used, chunks[i]);
    }
    AllCachedIsFree(again, after, later);
  }

  /** Every key names the document and the place of its chunk. */
  ghost predicate KeysMatch<V(!new)>(chunks: map<ChunkId, Chunk<V>>) {
    forall c :: c in chunks ==> chunks[c].documentId == c.documentId && chunks[c].index == c.index
  }

  ghost predicate AllKeysMatch<V(!new)>(s: Store<V>) {
    forall subject :: KeysMatch(Collection(s, subject))
  }

  /** Publishing leaves exactly this document's chunks 0..n-1 and every other chunk of every subject as it was. */
  lemma PublishReplacesOwnChunks<V(!new)>(s: Store<V>, id: string, texts: seq<string>, vectors: seq<V>)
    requires id in s.documents && |texts| == |vectors| && AllKeysMatch(s)
    ensures var subject := s.documents[id].subject;
            var before, after := Collection(s, subject), Collection(Publish(s, id, texts, vectors), subject);
            && KeysMatch(after)
            && (forall c: ChunkId :: c.documentId == id ==> (c in after <==> c.index < |texts|))
            && (forall c: ChunkId :: c.documentId == id && c in after ==>
                  after[c] == Chunk(id, c.index, s.documents[id].filename, texts[c.index], vectors[c.index]))
            && (forall c: ChunkId :: c.documentId != id ==> (c in after <==> c in before))
            && (forall c: ChunkId :: c.documentId != id && c in before ==> after[c] == before[c])
    ensures forall other :: other != s.documents[id].subject ==>
              Collection(Publish(s, id, texts, vectors), other) == Collection(s, other)
    ensures var d := Publish(s, id, texts, vectors).documents[id];
            d.status == Ready && d.chunkCount == |texts| && d.error == None
            && forall other :: other in s.documents && other != id ==>
                 other in Publish(s, id, texts, vectors).documents
                 && Publish(s, id, texts, vectors).documents[other] == s.documents[other]
  {
    PublishedCollections(s, id, texts, vectors);
    assert KeysMatch(Collection(s, s.documents[id].subject));
  }

  /** A complete ingest raises the content version of the document's subject by one and leaves every other alone; no
      other ending touches any. */
  lemma OnlyCompleteIngestBumps<V(!new)>(s: Store<V>, id: string, e: Ending<V>)
    requires id in s.documents && (e.Complete? ==> |e.texts| == |e.vectors|)
    ensures var s', subject := StoreAfter(s, id, e), s.documents[id].subject;
            && (e.Complete? ==>
                  && subject in s'.bumps
                  && s'.bumps[subject] == (if subject in s.bumps then s.bumps[subject] else 0) + 1
                  && forall other :: other != subject ==>
                       && (other in s'.bumps <==> other in s.bumps)
                       && (other in s.bumps ==> s'.bumps[other] == s.bumps[other]))
            && (!e.Complete? ==> s'.bumps == s.bumps)
  {
  }

  lemma PublishedCollections<V>(s: Store<V>, id: string, texts: seq<string>, vectors: seq<V>)
    requires id in s.documents && |texts| == |vectors|
    ensures var d, s' := s.documents[id], Publish(s, id, texts, vectors);
            && Collection(s', d.subject) == WithoutChunks(Collection(s, d.subject), id)
                + NewChunks(id, d.filename, texts, vectors)
            && forall other :: other != d.subject ==> Collection(s', other) == Collection(s, other)
  {
  }

  /** An ingest that fails before anything is published changes the document's row only. */
  /** What a user is told of a failed ingest that was not interrupted. */
  lemma FailureIsTold<V(!new)>(input: Input<V>, cache: map<string, V>, used: nat)
    ensures var e := EndingOf(input, cache, used);
            && (input.chunks.None? ==> ProblemOf(e) == Some(if input.unreadable then NoReadableText else Unexpected))
            && (input.chunks == Some([]) ==> ProblemOf(e) == Some(Unexpected))
            && (input.chunks.Some? && input.chunks.value != [] && !e.Interrupted? ==>
                  (ProblemOf(e) == Some(ServiceUnavailable) <==> Embedded(input, cache, input.chunks.value).None?)
                  && (ProblemOf(e) == None <==> e.Complete?))
  {
  }

  lemma OnlyNoted<V>(s: Store<V>, id: string, problem: Problem)
    requires id in s.documents
    ensures var s' := StoreAfter(s, id, Interrupted(problem));
            && s'.collections == s.collections && s'.bumps == s.bumps
            && s'.documents[id].status == Failed && s'.documents[id].error == Some(problem)
  {
  }

  ghost predicate FirstBlocked<V>(input: Input<V>, used: nat, misses: seq<nat>, k: nat) {
    k < |misses| && !Served(input, used, misses, k) && forall j: nat :: j < k ==> Served(input, used, misses, j)
  }

  /** An interrupted first pass stops at the first miss that does not go through. */
  lemma InterruptedAt<V>(input: Input<V>, cache: map<string, V>, used: nat) returns (k: nat)
    requires EndingOf(input, cache, used).Interrupted?
    ensures var misses := Misses(input.chunks.value, cache);
            && FirstBlocked(input, used, misses, k) && k == Reach(input, used, misses, 0)
            && EndingOf(input, cache, used) == Interrupted(Blocked(input, used, misses, k))
  {
    var misses := Misses(input.chunks.value, cache);
    k := Reach(input, used, misses, 0);
    assert k < |misses|;
  }

  /** An ingest that is interrupted leaves the chunk store and the version as they were; the user has paid for the
      misses before the one that did not go through, and for nothing else. */
  lemma InterruptedIngest<V(!new)>(s: Store<V>, id: string, input: Input<V>, cache: map<string, V>,
                                   used: nat) returns (k: nat)
    requires id in s.documents && EndingOf(input, cache, used).Interrupted?
    ensures var s' := StoreAfter(s, id, EndingOf(input, cache, used));
            && s'.collections == s.collections && s'.bumps == s.bumps
            && s'.documents[id].status == Failed && s'.documents[id].error == ProblemOf(EndingOf(input, cache, used))
    ensures var misses := Misses(input.chunks.value, cache);
            && FirstBlocked(input, used, misses, k)
            && EndingOf(input, cache, used) == Interrupted(Blocked(input, used, misses, k))
            && Charged(input, cache, used) == Spent(input.contexts, misses[..k])
            && StoreAfter(s, id, EndingOf(input, cache, used)).documents[id].error
               == Some(if used + Spent(input.contexts, misses[..k]) >= input.maxQuota then QuotaReached
                       else ServiceUnavailable)
  {
    k := InterruptedAt(input, cache, used);
    OnlyNoted(s, id, Blocked(input, used, Misses(input.chunks.value, cache), k));
  }

  /** A complete ingest charges exactly the tokens of the misses. */
  lemma CompleteIngestCharges<V(!new)>(input: Input<V>, cache: map<string, V>, used: nat)
    requires EndingOf(input, cache, used).Complete?
    ensures Charged(input, cache, used) == Spent(input.contexts, Misses(input.chunks.value, cache))
  {
    var misses := Misses(input.chunks.value, cache);
    assert Reach(input, used, misses, 0) == |misses|;
    assert misses[..|misses|] == misses;
  }

  lemma SameRowsKeepFiles<V(!new)>(s: Store<V>, s': Store<V>, hash: Bytes -> string)
    requires FilesMatch(s, hash) && NoDuplicates(s)
    requires s'.objects == s.objects && s'.documents.Keys == s.documents.Keys
    requires forall k :: k in s.documents ==>
               s'.documents[k].subject == s.documents[k].subject && s'.documents[k].fileHash == s.documents[k].fileHash
    ensures FilesMatch(s', hash) && NoDuplicates(s')
  {
    forall h
      ensures Referenced(s'.documents, h) <==> Referenced(s.documents, h)
    {
      if Referenced(s'.documents, h) {
        var k :| k in s'.documents && s'.documents[k].fileHash == h;
        assert s.documents[k].fileHash == h;
      }
      if Referenced(s.documents, h) {
        var k :| k in s.documents && s.documents[k].fileHash == h;
        assert s'.documents[k].fileHash == h;
      }
    }
    forall a, b | a in s'.documents && b in s'.documents
        && Same(s'.documents[a], s'.documents[b].subject, s'.documents[b].fileHash)
      ensures a == b
    {
      assert Same(s.documents[a], s.documents[b].subject, s.documents[b].fileHash);
    }
  }

  /** Chunks kept from before are owned as before; the others belong to a document of the subject. */
  lemma ChunksStayOwned<V(!new)>(s: Store<V>, s': Store<V>, id: string)
    requires ChunksOwned(s) && id in s.documents && s'.documents.Keys == s.documents.Keys
    requires forall k :: k in s.documents ==> s'.documents[k].subject == s.documents[k].subject
    requires forall subject, c :: c in Collection(s', subject) ==>
               || (c in Collection(s, subject) && Collection(s', subject)[c] == Collection(s, subject)[c])
               || (subject == s.documents[id].subject && Collection(s', subject)[c].documentId == id)
    ensures ChunksOwned(s')
  {
    forall subject, c | c in Collection(s', subject)
      ensures OwnedBy(s', subject, Collection(s', subject)[c].documentId)
    {
      if c in Collection(s, subject) && Collection(s', subject)[c] == Collection(s, subject)[c] {
        assert OwnedBy(s, subject, Collection(s, subject)[c].documentId);
      }
    }
  }

  lemma PublishKeepsConsistent<V(!new)>(s: Store<V>, id: string, texts: seq<string>, vectors: seq<V>,
                                        hash: Bytes -> string)
    requires Consistent(s, hash) && AllKeysMatch(s) && id in s.documents && |texts| == |vectors|
    ensures Consistent(Publish(s, id, texts, vectors), hash) && AllKeysMatch(Publish(s, id, texts, vectors))
  {
    var s' := Publish(s, id, texts, vectors);
    SameRowsKeepFiles(s, s', hash);
    PublishReplacesOwnChunks(s, id, texts, vectors);
    ChunksStayOwned(s, s', id);
    forall subject
      ensures KeysMatch(Collection(s', subject))
    {
      assert KeysMatch(Collection(s, subject));
    }
  }

  lemma DropKeepsConsistent<V(!new)>(s: Store<V>, id: string, hash: Bytes -> string)
    requires Consistent(s, hash) && AllKeysMatch(s) && id in s.documents
    ensures Consistent(Dropped(s, id), hash) && AllKeysMatch(Dropped(s, id))
  {
    var s' := Dropped(s, id);
    SameRowsKeepFiles(s, s', hash);
    ChunksStayOwned(s, s', id);
    forall subject
      ensures KeysMatch(Collection(s', subject))
    {
      assert KeysMatch(Collection(s, subject));
    }
  }

  lemma MarkKeepsConsistent<V(!new)>(s: Store<V>, id: string, problem: Problem, hash: Bytes -> string)
    requires Consistent(s, hash) && AllKeysMatch(s) && id in s.documents
    ensures Consistent(MarkFailed(s, id, problem), hash) && AllKeysMatch(MarkFailed(s, id, problem))
  {
    var s' := MarkFailed(s, id, problem);
    assert forall subject :: Collection(s', subject) == Collection(s, subject);
    SameRowsKeepFiles(s, s', hash);
    ChunksStayOwned(s, s', id);
  }

  /** However an ingest ends, files, rows and chunks stay consistent. */
  lemma IngestKeepsConsistent<V(!new)>(s: Store<V>, id: string, e: Ending<V>, hash: Bytes -> string)
    requires Consistent(s, hash) && AllKeysMatch(s) && id in s.documents && (e.Complete? ==> |e.texts| == |e.vectors|)
    ensures Consistent(StoreAfter(s, id, e), hash) && AllKeysMatch(StoreAfter(s, id, e))
  {
    match e
    case Complete(texts, vectors) => PublishKeepsConsistent(s, id, texts, vectors, hash);
    case Incomplete =>
      DropKeepsConsistent(s, id, hash);
      MarkKeepsConsistent(Dropped(s, id), id, Unexpected, hash);
    case _ => MarkKeepsConsistent(s, id, ProblemOf(e).value, hash);
  }
}

/** Uploads, deletions and ingests in any order. */
module LibraryRuns {
  import opened DocumentStore
  import opened Ingest

  datatype Event<V> = Change(op: Op) | Ingested(id: string, ending: Ending<V>)

  ghost predicate Happens<V(!new)>(s: Store<V>, e: Event<V>, hash: Bytes -> string, s': Store<V>) {
    match e
    case Change(op) => Step(s, op, hash, s')
    case Ingested(id, ending) =>
      && (ending.Complete? ==> |ending.texts| == |ending.vectors|)
      && s' == if id in s.documents then StoreAfter(s, id, ending) else s
  }

  ghost predicate IsHistory<V(!new)>(stores: seq<Store<V>>, events: seq<Event<V>>, hash: Bytes -> string) {
    && |stores| == |events| + 1 && stores[0] == Store(map[], map[], map[], map[])
    && forall i :: 0 <= i < |events| ==> Happens(stores[i], events[i], hash, stores[i + 1])
  }

  /** No collection of `s'` holds a chunk that `s` does not. */
  ghost predicate NoNewChunks<V(!new)>(s: Store<V>, s': Store<V>) {
    forall subject, c :: c in Collection(s', subject) ==>
      c in Collection(s, subject) && Collection(s', subject)[c] == Collection(s, subject)[c]
  }

  lemma FewerChunksMatch<V(!new)>(s: Store<V>, s': Store<V>)
    requires AllKeysMatch(s) && NoNewChunks(s, s')
    ensures AllKeysMatch(s')
  {
    forall subject
      ensures KeysMatch(Collection(s', subject))
    {
      assert KeysMatch(Collection(s, subject));
    }
  }

  lemma StepAddsNoChunks<V(!new)>(s: Store<V>, op: Op, hash: Bytes -> string, s': Store<V>)
    requires Step(s, op, hash, s')
    ensures NoNewChunks(s, s')
  {
    if op.Add? {
      var result :| Uploaded(s, op.upload, hash, result, s');
      assert s'.collections == s.collections;
    }
  }

  /** Whatever is uploaded, ingested and deleted: the stored files are exactly those of the documents, no subject
      holds a file twice, every chunk belongs to a document of its subject and is stored under its own key. */
  lemma {:induction false} EveryHistoryIsConsistent<V(!new)>(stores: seq<Store<V>>, events: seq<Event<V>>,
                                                             hash: Bytes -> string, i: nat)
    requires IsHistory(stores, events, hash) && i <= |events|
    ensures Consistent(stores[i], hash) && AllKeysMatch(stores[i])
    decreases i
  {
    if i > 0 {
      EveryHistoryIsConsistent(stores, events, hash, i - 1);
      var s, s' := stores[i - 1], stores[i];
      assert Happens(s, events[i - 1], hash, s');
      match events[i - 1]
      case Change(op) =>
        StepKeeps(s, op, hash, s');
        StepAddsNoChunks(s, op, hash, s');
        FewerChunksMatch(s, s');
      case Ingested(id, ending) =>
        if id in s.documents {
          IngestKeepsConsistent(s, id, ending, hash);
        }
    }
  }
}

/** The ingest job, step by step. */
module IngestService {
  import opened Common
  import opened DocumentStore
  import opened DocumentService
  import opened Ingest

  class Ingester<V> {
    const library: Library<V>
    var cache: map<string, V>
    var used: map<string, nat>

    constructor (library: Library<V>)
      ensures this.library == library && cache == map[] && used == map[]
    {
      this.library, cache, used := library, map[], map[];
    }

    method RecordUsage(user: string, tokens: nat)
      modifies this`used
      ensures Used(used, user) == Used(old(used), user) + tokens
      ensures OthersKept(old(used), used, user)
    {
      used := used[user := Used(used, user) + tokens];
    }

    /** Checks the quota, asks the model for the context of chunk `i` and charges its tokens. */
    method GenerateContext(user: string, i: nat, input: Input<V>) returns (context: Context, problem: Option<Problem>)
      modifies this`used
      ensures problem == if Used(old(used), user) >= input.maxQuota then Some(QuotaReached)
                         else if input.contexts(i).None? then Some(ServiceUnavailable) else None
      ensures problem.Some? ==> used == old(used)
      ensures problem.None? ==>
                input.contexts(i) == Some(context) && Used(used, user) == Used(old(used), user) + context.tokens
      ensures OthersKept(old(used), used, user)
    {
      context, problem := Context("", 0), None;
      if Used(used, user) >= input.maxQuota {
        problem := Some(QuotaReached);
      } else if input.contexts(i).None? {
        problem := Some(ServiceUnavailable);
      } else {
        context := input.contexts(i).value;
        RecordUsage(user, context.tokens);
      }
    }

    /** First pass. Stops at the first miss the quota or the model does not let through. */
    method Contextualise(user: string, chunks: seq<string>, input: Input<V>)
      returns (texts: seq<string>, slots: seq<Option<V>>, misses: seq<nat>, problem: Option<Problem>)
      modifies this`used
      ensures var all := Misses(chunks, cache);
              var reach := Reach(input, Used(old(used), user), all, 0);
              && Used(used, user) == Used(old(used), user) + Spent(input.contexts, all[..reach])
              && problem == (if reach == |all| then None else Some(Blocked(input, Used(old(used), user), all, reach)))
              && (problem.None? ==>
                    && misses == all && texts == FinalTexts(input, cache, chunks, |chunks|)
                    && slots == EmptySlots(chunks, cache))
      ensures OthersKept(old(used), used, user)
    {
      texts, slots, misses := [], [], [];
      ghost var before := Used(used, user);
      for i := 0 to |chunks|
        invariant Progress(input, before, chunks, cache, i, texts, slots, misses)
        invariant Used(used, user) == before + Spent(input.contexts, misses)
        invariant OthersKept(old(used), used, user)
      {
        if chunks[i] in cache {
          ProgressHit(input, before, chunks, cache, i, texts, slots, misses);
          texts, slots := texts + [chunks[i]], slots + [Some(cache[chunks[i]])];
        } else {
          var context;
          context, problem := GenerateContext(user, i, input);
          if problem.Some? {
            StopsHere(input, before, chunks, cache, i);
            return;
          }
          ProgressMiss(input, before, chunks, cache, i, texts, slots, misses);
          texts := texts + [ApplyContext(context.content, chunks[i])];
          slots := slots + [None];
          misses := misses + [i];
        }
      }
      ProgressDone(input, before, chunks, cache, texts, slots, misses);
      problem := None;
    }

    /** Second pass: embeds all misses at once and writes what comes back into the slots and the cache. */
    method EmbedMisses(chunks: seq<string>, texts: seq<string>, empty: seq<Option<V>>, misses: seq<nat>,
                       input: Input<V>)
      returns (slots: seq<Option<V>>, ok: bool)
      requires misses == Misses(chunks, cache) && texts == FinalTexts(input, cache, chunks, |chunks|)
      requires |empty| == |chunks|
      modifies this`cache
      ensures ok <==> Embedded(input, old(cache), chunks).Some?
      ensures !ok ==> cache == old(cache)
      ensures ok ==> var vectors := Embedded(input, old(cache), chunks).value;
                     slots == Filled(empty, misses, vectors)
                         && cache == Cached(chunks, old(cache), misses, vectors, Pairs(misses, |vectors|))
    {
      slots := empty;
      if misses == [] {
        return slots, true;
      }
      var toEmbed := [];
      for k := 0 to |misses|
        invariant |toEmbed| == k && forall j :: 0 <= j < k ==> toEmbed[j] == texts[misses[j]]
      {
        toEmbed := toEmbed + [texts[misses[k]]];
      }
      assert toEmbed == MissTexts(input, cache, chunks, misses);
      var reply := input.embed(toEmbed);
      if reply.None? {
        return slots, false;
      }
      slots := WriteVectors(chunks, empty, misses, reply.value);
      ok := true;
    }

    /** Pairs misses and vectors up to the shorter of the two. */
    method WriteVectors(chunks: seq<string>, empty: seq<Option<V>>, misses: seq<nat>, vectors: seq<V>)
      returns (slots: seq<Option<V>>)
      requires |empty| == |chunks| && forall k :: 0 <= k < |misses| ==> misses[k] < |chunks|
      modifies this`cache
      ensures slots == Filled(empty, misses, vectors)
              && cache == Cached(chunks, old(cache), misses, vectors, Pairs(misses, |vectors|))
    {
      slots := empty;
      var pairs := Pairs(misses, |vectors|);
      for k := 0 to pairs
        invariant |slots| == |chunks|
        invariant Filled(slots, misses[k..], vectors[k..]) == Filled(empty, misses, vectors)
        invariant cache == Cached(chunks, old(cache), misses, vectors, k)
      {
        assert misses[k..][1..] == misses[k + 1..] && vectors[k..][1..] == vectors[k + 1..];
        slots := slots[misses[k] := Some(vectors[k])];
        cache := cache[chunks[misses[k]] := vectors[k]];
      }
    }

    /** Replaces the document's chunks. The chunk store refuses a chunk without a vector, after the old chunks
        are gone. */
    method ReplaceChunks(id: string, d: Document, texts: seq<string>, slots: seq<Option<V>>) returns (ok: bool)
      requires |slots| == |texts| && id in library.documents && library.documents[id] == d
      modifies library`collections, library`bumps, library`documents
      ensures ok == AllFilled(slots)
      ensures var dropped := Dropped(old(library.Value()), id);
              library.Value() ==
              if ok then Publish(old(library.Value()), id, texts, Values(slots)) else dropped
    {
      library.DeleteDocumentChunks(d.subject, id);
      assert library.Value() == Dropped(old(library.Value()), id);
      if i :| 0 <= i < |slots| && slots[i].None? {
        return false;
      }
      var added := NewChunks(id, d.filename, texts, Values(slots));
      library.UpsertChunks(d.subject, added);
      library.BumpSubjectVersion(d.subject);
      library.SaveDocument(id, d.(status := Ready, chunkCount := |texts|, error := None));
      ok := true;
    }

    /** The work of an ingest; `d` is its copy of the document. Answers what went wrong. */
    method Work(id: string, d: Document, input: Input<V>) returns (problem: Option<Problem>)
      requires id in library.documents && library.documents[id] == d
      modifies this`cache, this`used, library`collections, library`bumps, library`documents
      ensures var before := Used(old(used), d.uploadedBy);
              var e := EndingOf(input, old(cache), before);
              && problem == ProblemOf(e) && library.Value() == Worked(old(library.Value()), id, e)
              && cache == CacheAfter(input, old(cache), e)
              && Used(used, d.uploadedBy) == before + Charged(input, old(cache), before)
      ensures OthersKept(old(used), used, d.uploadedBy)
    {
      if input.chunks.None? {
        return Some(if input.unreadable then NoReadableText else Unexpected);
      }
      var chunks := input.chunks.value;
      if chunks == [] {
        return Some(Unexpected);
      }
      var texts, slots, misses;
      texts, slots, misses, problem := Contextualise(d.uploadedBy, chunks, input);
      if problem.None? {
        problem := EmbedAndStore(id, d, texts, slots, misses, input);
      }
    }

    /** What is left to do once every miss has its context. */
    method EmbedAndStore(id: string, d: Document, texts: seq<string>, empty: seq<Option<V>>, misses: seq<nat>,
                         input: Input<V>)
      returns (problem: Option<Problem>)
      requires id in library.documents && library.documents[id] == d && input.chunks.Some?
      requires var chunks := input.chunks.value;
               misses == Misses(chunks, cache) && texts == FinalTexts(input, cache, chunks, |chunks|)
                   && empty == EmptySlots(chunks, cache)
      modifies this`cache, library`collections, library`bumps, library`documents
      ensures var e := EndingWith(input, old(cache));
              && problem == ProblemOf(e) && library.Value() == Worked(old(library.Value()), id, e)
              && cache == CacheAfter(input, old(cache), e)
    {
      ghost var before, s := cache, library.Value();
      var slots, ok := EmbedMisses(input.chunks.value, texts, empty, misses, input);
      if !ok {
        NotEmbeddedEnds(input, before);
        return Some(ServiceUnavailable);
      }
      assert library.Value() == s;
      EmbeddedEnds(input, before, slots);
      EmbeddedWorks(s, id, texts, slots, EndingWith(input, before));
      ok := ReplaceChunks(id, d, texts, slots);
      problem := if ok then None else Some(Unexpected);
    }

    method IngestDocument(id: string, input: Input<V>)
      modifies this`cache, this`used, library`collections, library`bumps, library`documents
      ensures id !in old(library.documents) ==>
                library.Value() == old(library.Value()) && cache == old(cache) && used == old(used)
      ensures id in old(library.documents) ==>
                var user := old(library.documents)[id].uploadedBy;
                var before := Used(old(used), user);
                var e := EndingOf(input, old(cache), before);
                && library.Value() == StoreAfter(old(library.Value()), id, e)
                && cache == CacheAfter(input, old(cache), e)
                && Used(used, user) == before + Charged(input, old(cache), before)
                && OthersKept(old(used), used, user)
    {
      if id !in library.documents {
        return;
      }
      var d := library.documents[id].(status := Processing);
      ghost var s, e := library.Value(), EndingOf(input, cache, Used(used, d.uploadedBy));
      library.SaveDocument(id, d);
      var problem := Work(id, d, input);
      WorkAfterSave(s, id, d, e);
      if problem.Some? {
        library.SaveDocument(id, d.(status := Failed, error := problem));
      }
    }
  }
}
