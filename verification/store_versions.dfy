/** The store's deletions and ingests as writers of the content version: each changes the corpus of its subject and then
    bumps. */
module StoreVersions {
  import opened Common
  import opened JsonText
  import opened DocumentStore
  import opened Ingest
  import CV = ContentVersion
  import CorpusCacheSafety
  import AC = AnswerCache

  /** The id of a chunk in the vector store. */
  function KeyOf(c: ChunkId): string {
    c.documentId + "_" + PrintNat(c.index, "")
  }

  lemma {:induction false} NatIsDigits(n: nat, rest: string)
    ensures var s := PrintNat(n, rest);
            |s| > |rest| && s[|s| - |rest|..] == rest && forall i :: 0 <= i < |s| - |rest| ==> IsDigit(s[i])
    decreases n
  {
    if n >= 10 {
      var more := [DigitChar(n % 10)] + rest;
      NatIsDigits(n / 10, more);
      OneMoreDigit(PrintNat(n, rest), n % 10, rest);
    }
  }

  lemma OneMoreDigit(s: string, d: nat, rest: string)
    requires d < 10 && |s| > |rest| + 1 && s[|s| - |rest| - 1..] == [DigitChar(d)] + rest
    requires forall i :: 0 <= i < |s| - |rest| - 1 ==> IsDigit(s[i])
    ensures s[|s| - |rest|..] == rest && forall i :: 0 <= i < |s| - |rest| ==> IsDigit(s[i])
  {
    var k := |s| - |rest| - 1;
    assert s[k..][0] == s[k] && s[k..][1..] == s[k + 1..];
  }

  lemma NatsDiffer(m: nat, n: nat)
    requires PrintNat(m, "") == PrintNat(n, "")
    ensures m == n
  {
    NatRoundTrip(m, "");
    NatRoundTrip(n, "");
  }

  /** Different chunks have different ids, whatever the ids of their documents look like. */
  lemma KeysDiffer(a: ChunkId, b: ChunkId)
    requires KeyOf(a) == KeyOf(b)
    ensures a == b
  {
    NumberIsDigits(a);
    NumberIsDigits(b);
    var key, n := KeyOf(a), |a.documentId|;
    assert key[..n] == a.documentId && key[..n] == b.documentId;
    assert key[n + 1..] == PrintNat(a.index, "") && key[n + 1..] == PrintNat(b.index, "");
    NatsDiffer(a.index, b.index);
  }

  lemma NumberIsDigits(c: ChunkId)
    ensures var key, n := KeyOf(c), |c.documentId|;
            |key| > n && key[n] == '_' && forall k :: n < k < |key| ==> IsDigit(key[k])
  {
    NatIsDigits(c.index, "");
    var key, n := KeyOf(c), |c.documentId|;
    assert key[n + 1..] == PrintNat(c.index, "");
    forall k | n < k < |key|
      ensures IsDigit(key[k])
    {
      assert key[k] == key[n + 1..][k - n - 1];
    }
  }

  /** What the readers of a subject see of its chunks. */
  function CorpusOf<V>(chunks: map<ChunkId, Chunk<V>>): CV.Corpus {
    AllKeysDiffer();
    map c | c in chunks :: KeyOf(c) := CV.Chunk(chunks[c].documentId, chunks[c].text, chunks[c].filename)
  }

  lemma AllKeysDiffer()
    ensures forall a: ChunkId, b: ChunkId :: KeyOf(a) == KeyOf(b) ==> a == b
  {
    forall a: ChunkId, b: ChunkId | KeyOf(a) == KeyOf(b)
      ensures a == b
    {
      KeysDiffer(a, b);
    }
  }

  /** The state machine of one subject stands where the store stands. */
  predicate Mirrors<V>(m: CV.State, s: Store<V>, subject: string) {
    m.raw == BumpsOf(s, subject) && m.corpus == CorpusOf(Collection(s, subject))
  }

  lemma DroppedMirrors<V(!new)>(chunks: map<ChunkId, Chunk<V>>, id: string)
    ensures CorpusOf(WithoutChunks(chunks, id)) == CV.WithoutDocument(CorpusOf(chunks), id)
  {
    AllKeysDiffer();
    var left, corpus := WithoutChunks(chunks, id), CorpusOf(chunks);
    forall key | key in CV.WithoutDocument(corpus, id)
      ensures key in CorpusOf(left) && CorpusOf(left)[key] == corpus[key]
    {
      var c :| c in chunks && KeyOf(c) == key;
      assert c in left;
    }
    forall key | key in CorpusOf(left)
      ensures key in CV.WithoutDocument(corpus, id)
    {
      var c :| c in left && KeyOf(c) == key;
    }
  }

  lemma InCorpus<V(!new)>(chunks: map<ChunkId, Chunk<V>>, c: ChunkId)
    ensures KeyOf(c) in CorpusOf(chunks) <==> c in chunks
    ensures c in chunks ==>
              CorpusOf(chunks)[KeyOf(c)] == CV.Chunk(chunks[c].documentId, chunks[c].text, chunks[c].filename)
  {
    AllKeysDiffer();
  }

  lemma AddedMirrors<V(!new)>(chunks: map<ChunkId, Chunk<V>>, added: map<ChunkId, Chunk<V>>)
    ensures CorpusOf(chunks + added) == CorpusOf(chunks) + CorpusOf(added)
  {
    var all, sum := CorpusOf(chunks + added), CorpusOf(chunks) + CorpusOf(added);
    forall key | key in all || key in sum
      ensures key in sum && key in all && sum[key] == all[key]
    {
      var c :| (c in chunks || c in added) && KeyOf(c) == key;
      InCorpus(chunks + added, c);
      InCorpus(chunks, c);
      InCorpus(added, c);
    }
  }

  /** A new writer, and all of its steps with nobody else in between. */
  function Written(m: CV.State, w: CV.Writer): CV.State {
    var m1 := CV.StepOfWriter(m, w);
    var m2 := CV.StepOfWriter(m1.fst, m1.snd);
    var m3 := CV.StepOfWriter(m2.fst, m2.snd);
    m3.fst.(writers := m.writers + [m3.snd])
  }

  lemma WrittenIsRun(m: CV.State, w: CV.Writer) returns (actions: seq<CV.Action>)
    requires w.IngestDeleting? || w.DocumentDeleting?
    ensures CV.Run(m, actions) == Written(m, w) && Written(m, w).caches == m.caches
  {
    var j := |m.writers|;
    var start := if w.IngestDeleting? then CV.StartIngest(w.documentId, w.chunks) else CV.StartDelete(w.documentId);
    var step := CV.StepWriter(j);
    actions := [start, step, step, step];
    var m0 := CV.Next(m, start);
    assert m0 == m.(writers := m.writers + [w]);
    var m1 := CV.Next(m0, step);
    assert m1.writers == m.writers + [CV.StepOfWriter(m, w).snd];
    var m2 := CV.Next(m1, step);
    var p1 := CV.StepOfWriter(m, w);
    assert m2.writers == m.writers + [CV.StepOfWriter(p1.fst, p1.snd).snd];
    var m3 := CV.Next(m2, step);
    assert m3 == Written(m, w);
    CorpusCacheSafety.PathIsRun([m, m0, m1, m2, m3], actions);
  }

  lemma WriterWrites(m: CV.State, w: CV.Writer)
    requires w.IngestDeleting? || w.DocumentDeleting?
    ensures var m', left := Written(m, w), CV.WithoutDocument(m.corpus, w.documentId);
            && m'.raw == m.raw + 1 && m'.caches == m.caches
            && m'.corpus == if w.IngestDeleting? then left + w.chunks else left
  {
  }

  lemma WriterMirrors<V>(m: CV.State, w: CV.Writer, s: Store<V>, s': Store<V>, subject: string, touched: string)
    requires (w.IngestDeleting? || w.DocumentDeleting?) && Mirrors(m, s, subject)
    requires BumpsOf(s', subject) == BumpsOf(s, subject) + if subject == touched then 1 else 0
    requires var before := CorpusOf(Collection(s, subject));
             var left := CV.WithoutDocument(before, w.documentId);
             CorpusOf(Collection(s', subject))
             == if subject != touched then before else if w.IngestDeleting? then left + w.chunks else left
    ensures Mirrors(if subject == touched then Written(m, w) else m, s', subject)
  {
    WriterWrites(m, w);
  }

  lemma DeletedCollections<V(!new)>(s: Store<V>, id: string, subject: string)
    requires id in s.documents
    ensures var s', mine := DeleteDocument(s, id), subject == s.documents[id].subject;
            && Collection(s', subject)
               == (if mine then WithoutChunks(Collection(s, subject), id) else Collection(s, subject))
            && BumpsOf(s', subject) == BumpsOf(s, subject) + if mine then 1 else 0
  {
  }

  /** Deleting a document is the deleting writer on its subject, and nothing on any other. */
  lemma DeletionIsWriter<V(!new)>(m: CV.State, s: Store<V>, id: string, subject: string)
    requires id in s.documents && Mirrors(m, s, subject)
    ensures var s', mine := DeleteDocument(s, id), subject == s.documents[id].subject;
            Mirrors(if mine then Written(m, CV.DocumentDeleting(id)) else m, s', subject)
  {
    DeletedCollections(s, id, subject);
    DroppedMirrors(Collection(s, subject), id);
    WriterMirrors(m, CV.DocumentDeleting(id), s, DeleteDocument(s, id), subject, s.documents[id].subject);
  }

  lemma PublishedBumps<V(!new)>(s: Store<V>, id: string, texts: seq<string>, vectors: seq<V>, subject: string)
    requires id in s.documents && |texts| == |vectors|
    ensures BumpsOf(Publish(s, id, texts, vectors), subject)
            == BumpsOf(s, subject) + if subject == s.documents[id].subject then 1 else 0
  {
  }

  lemma PublishedCorpus<V(!new)>(s: Store<V>, id: string, texts: seq<string>, vectors: seq<V>, subject: string)
    requires id in s.documents && |texts| == |vectors|
    ensures var s', before := Publish(s, id, texts, vectors), CorpusOf(Collection(s, subject));
            var added := NewChunks(id, s.documents[id].filename, texts, vectors);
            CorpusOf(Collection(s', subject))
            == if subject == s.documents[id].subject then CV.WithoutDocument(before, id) + CorpusOf(added) else before
  {
    PublishedCollections(s, id, texts, vectors);
    if subject == s.documents[id].subject {
      DroppedMirrors(Collection(s, subject), id);
      AddedMirrors(WithoutChunks(Collection(s, subject), id), NewChunks(id, s.documents[id].filename, texts, vectors));
    }
  }

  /** A complete ingest is the ingesting writer on its document's subject, and nothing on any other. */
  lemma IngestIsWriter<V(!new)>(m: CV.State, s: Store<V>, id: string, texts: seq<string>, vectors: seq<V>,
                                subject: string)
    requires id in s.documents && |texts| == |vectors| && Mirrors(m, s, subject)
    ensures var s', mine := Publish(s, id, texts, vectors), subject == s.documents[id].subject;
            var added := CorpusOf(NewChunks(id, s.documents[id].filename, texts, vectors));
            Mirrors(if mine then Written(m, CV.IngestDeleting(id, added)) else m, s', subject)
  {
    var added := NewChunks(id, s.documents[id].filename, texts, vectors);
    PublishedCorpus(s, id, texts, vectors, subject);
    PublishedBumps(s, id, texts, vectors, subject);
    WriterMirrors(m, CV.IngestDeleting(id, CorpusOf(added)), s, Publish(s, id, texts, vectors), subject,
                  s.documents[id].subject);
  }

  /** After either, nothing cached under the version before is hit any more, unless it was the first bump of the
      subject. */
  lemma EarlierVersionMisses(m: CV.State, w: CV.Writer, process: nat)
    requires w.IngestDeleting? || w.DocumentDeleting?
    requires process in m.caches && m.caches[process].version == CV.Version(m.raw)
    ensures var m' := Written(m, w);
            CV.Hit(m', process, CV.Version(m'.raw)) <==> m.raw == 0
  {
    WriterWrites(m, w);
  }

  /** An ingest that is refused by the vector store is the ingesting writer that fails between its two changes. */
  lemma RefusedIngestIsFailure<V(!new)>(m: CV.State, s: Store<V>, id: string, chunks: CV.Corpus)
    requires id in s.documents && Mirrors(m, s, s.documents[id].subject)
    ensures Mirrors(CorpusCacheSafety.FailedIngest(m, id, chunks), StoreAfter(s, id, Incomplete),
                    s.documents[id].subject)
  {
    var subject := s.documents[id].subject;
    CorpusCacheSafety.FailedIngestDeletes(m, id, chunks);
    DroppedMirrors(Collection(s, subject), id);
    assert Collection(StoreAfter(s, id, Incomplete), subject) == WithoutChunks(Collection(s, subject), id);
  }

  /** The answer cache reads the same counter: after a deletion or a complete ingest every answer of the subject misses,
      unless it was the first bump. */
  lemma AnswersMiss<A(!new), V(!new)>(r: AC.Redis<A>, s: Store<V>, s': Store<V>, subject: string)
    requires AC.Raw(r, subject) == BumpsOf(s, subject) && BumpsOf(s', subject) == BumpsOf(s, subject) + 1
    requires forall key :: key in r.answers && key.subject == subject ==> key.version <= AC.VersionOf(r, subject)
    ensures var r' := AC.Apply(r, AC.Bump(subject));
            && AC.Raw(r', subject) == BumpsOf(s', subject)
            && (BumpsOf(s, subject) >= 1 ==> AC.AllMiss(r', subject))
            && (BumpsOf(s, subject) == 0 ==> forall q :: AC.Get(r', subject, q) == AC.Get(r, subject, q))
  {
  }
}
