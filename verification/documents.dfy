/** The names documents are stored under. */
module Filenames {
  import opened Common
  import opened Text

  const UNSAFE: string := "<>:\"/\\|?*"
  const MAX_FILENAME: nat := 255
  const UNNAMED: string := "unnamed"

  predicate Unsafe(c: char) {
    c in UNSAFE || c <= '\U{1F}'
  }

  function Cleaned(filename: string): (r: string)
    ensures |r| == |filename| && forall i :: 0 <= i < |r| ==> r[i] == if Unsafe(filename[i]) then '_' else filename[i]
  {
    seq(|filename|, i requires 0 <= i < |filename| => if Unsafe(filename[i]) then '_' else filename[i])
  }

  function SanitizeFilename(filename: string): string {
    var cleaned := Strip(Cleaned(filename), PySpace);
    var cut := if |cleaned| > MAX_FILENAME then cleaned[..MAX_FILENAME] else cleaned;
    if cut == [] then UNNAMED else cut
  }

  /** A missing or empty filename is stored as "unnamed". */
  function Sanitized(filename: Option<string>): string {
    SanitizeFilename(if filename.None? || filename.value == [] then UNNAMED else filename.value)
  }

  lemma {:induction false} StripOfSafe(s: string)
    requires forall i :: 0 <= i < |s| ==> !Unsafe(s[i])
    ensures forall i :: 0 <= i < |Strip(s, PySpace)| ==> !Unsafe(Strip(s, PySpace)[i])
    decreases |s|
  {
    if s != [] {
      StripOfSafe(s[1..]);
      StripOfSafe(s[..|s| - 1]);
    }
  }

  lemma SafeIsKept(s: string)
    requires 1 <= |s| <= MAX_FILENAME && !PySpace(s[0]) && !PySpace(s[|s| - 1]) && forall i :: 0 <= i < |s| ==>
               !Unsafe(s[i])
    ensures SanitizeFilename(s) == s
  {
    assert Cleaned(s) == s;
    assert Strip(s, PySpace) == s;
  }

  /** A missing filename and an empty one are stored as "unnamed". */
  lemma MissingNameIs()
    ensures Sanitized(None) == "unnamed" && Sanitized(Some("")) == "unnamed"
  {
    SafeIsKept(UNNAMED);
  }

  /** A sanitised name is a part of the filename, at most 255 characters of it, with every unsafe character replaced;
      around it there was only whitespace. When nothing is left the name is "unnamed". */
  lemma SanitizedIs(filename: string) returns (a: nat, b: nat)
    ensures a <= b <= |filename|
    ensures forall i :: 0 <= i < a || b <= i < |filename| ==> PySpace(filename[i])
    ensures a < b ==> !PySpace(filename[a]) || Unsafe(filename[a])
    ensures a < b ==> !PySpace(filename[b - 1]) || Unsafe(filename[b - 1])
    ensures var r := SanitizeFilename(filename);
            if a == b then r == "unnamed"
            else
              && |r| == (if b - a <= 255 then b - a else 255)
              && forall i :: 0 <= i < |r| ==> r[i] == if Unsafe(filename[a + i]) then '_' else filename[a + i]
  {
    var cleaned := Cleaned(filename);
    a, b := StripPlaces(cleaned, PySpace);
    forall i | 0 <= i < a || b <= i < |filename|
      ensures PySpace(filename[i])
    {
      assert PySpace(cleaned[i]) && !PySpace('_');
    }
    assert Strip(cleaned, PySpace) == cleaned[a..b];
  }

  /** A sanitised name is never empty, never too long, and holds no character that is unsafe in a path or in markup. */
  lemma SanitizedIsSafe(filename: string)
    ensures var r := SanitizeFilename(filename);
            && 1 <= |r| <= MAX_FILENAME && !PySpace(r[0])
            && forall i :: 0 <= i < |r| ==> !Unsafe(r[i]) && r[i] > '\U{1F}' && r[i] !in "<>:\"/\\|?*"
  {
    var cleaned := Cleaned(filename);
    assert !Unsafe('_');
    StripOfSafe(cleaned);
    assert forall i :: 0 <= i < |UNNAMED| ==> 'a' <= UNNAMED[i] <= 'z';
  }

  /** Sanitising twice gives something else exactly when the cut to the maximal length left whitespace at the end. */
  lemma SanitizeTwiceIff(filename: string)
    ensures var r := SanitizeFilename(filename);
            SanitizeFilename(r) == r <==> !PySpace(r[|r| - 1])
  {
    var r := SanitizeFilename(filename);
    SanitizedIsSafe(filename);
    if PySpace(r[|r| - 1]) {
      assert Cleaned(r) == r;
      assert Strip(r, PySpace) != r;
      StripShorter(r);
    } else {
      SafeIsKept(r);
    }
  }

  lemma StripShorter(r: string)
    requires r != [] && !PySpace(r[0]) && PySpace(r[|r| - 1])
    ensures 0 < |Strip(r, PySpace)| < |r|
  {
    var front := r[..|r| - 1];
    assert front[0] == r[0];
    StripKeepsFirst(front);
  }

  lemma {:induction false} StripKeepsFirst(s: string)
    requires s != [] && !PySpace(s[0])
    ensures Strip(s, PySpace) != []
    decreases |s|
  {
    if PySpace(s[|s| - 1]) {
      StripKeepsFirst(s[..|s| - 1]);
    }
  }
}

/** Documents, their stored files and their chunks: uploads and deletions as functions of the whole store. */
module DocumentStore {
  import opened Common
  import Filenames

  type Byte = n: int | 0 <= n < 256
  type Bytes = seq<Byte>

  datatype Status = Pending | Processing | Ready | Failed

  /** Why an ingest failed, as far as the user is told. */
  datatype Problem = ServiceUnavailable | NoReadableText | QuotaReached | Unexpected

  datatype Document = Document(subject: string, filename: string, contentType: string, fileHash: string,
                               uploadedBy: string, status: Status, chunkCount: nat, error: Option<Problem>)

  datatype ChunkId = ChunkId(documentId: string, index: nat)

  /** A stored chunk; its metadata names the document it belongs to. */
  datatype Chunk<V> = Chunk(documentId: string, index: nat, filename: string, text: string, vector: V)

  /** `objects` is the file store, keyed by content hash; `collections` the chunk store, one collection per
      subject; `bumps` counts the content-version bumps of each subject. */
  datatype Store<V> = Store(documents: map<string, Document>, objects: map<string, Bytes>,
                            collections: map<string, map<ChunkId, Chunk<V>>>, bumps: map<string, nat>)

  datatype UploadResult = UnsupportedType | TooLarge | Existing(id: string) | New(id: string)

  /** An upload. `id` is the id a new document would get. */
  datatype Upload = Upload(id: string, subject: string, uploadedBy: string, filename: Option<string>,
                           contentType: Option<string>, data: Bytes)

  const ALLOWED_CONTENT_TYPES: set<string> := {
    "text/plain",
    "application/pdf",
    "application/vnd.openxmlformats-officedocument.wordprocessingml.document",
    "application/vnd.openxmlformats-officedocument.presentationml.presentation",
    "application/vnd.openxmlformats-officedocument.spreadsheetml.sheet"
  }
  const MAX_FILE_SIZE: nat := 50 * 1024 * 1024

  predicate Acceptable(u: Upload) {
    u.contentType.Some? && u.contentType.value in ALLOWED_CONTENT_TYPES && |u.data| <= MAX_FILE_SIZE
  }

  ghost predicate Same(d: Document, subject: string, fileHash: string) {
    d.subject == subject && d.fileHash == fileHash
  }

  ghost predicate HasFile<V>(s: Store<V>, subject: string, fileHash: string) {
    exists id :: id in s.documents && Same(s.documents[id], subject, fileHash)
  }

  /** Some document uses the file. */
  ghost predicate Referenced(documents: map<string, Document>, fileHash: string) {
    exists id :: id in documents && documents[id].fileHash == fileHash
  }

  // ---- The invariant. ----

  /** The stored files are exactly those of the documents, each under the hash of its bytes. */
  ghost predicate FilesMatch<V>(s: Store<V>, hash: Bytes -> string) {
    && (forall h :: h in s.objects <==> Referenced(s.documents, h))
    && (forall h :: h in s.objects ==> hash(s.objects[h]) == h)
  }

  ghost predicate NoDuplicates<V>(s: Store<V>) {
    forall a, b ::
      a in s.documents && b in s.documents && Same(s.documents[a], s.documents[b].subject, s.documents[b].fileHash)
      ==> a == b
  }

  function Collection<V>(s: Store<V>, subject: string): map<ChunkId, Chunk<V>> {
    if subject in s.collections then s.collections[subject] else map[]
  }

  /** Every chunk belongs to a document of its subject. */
  ghost predicate ChunksOwned<V>(s: Store<V>) {
    forall subject, c :: c in Collection(s, subject) ==> OwnedBy(s, subject, Collection(s, subject)[c].documentId)
  }

  ghost predicate OwnedBy<V>(s: Store<V>, subject: string, documentId: string) {
    documentId in s.documents && s.documents[documentId].subject == subject
  }

  ghost predicate Consistent<V>(s: Store<V>, hash: Bytes -> string) {
    FilesMatch(s, hash) && NoDuplicates(s) && ChunksOwned(s)
  }

  // ---- The operations. ----

  /** Stores the file unless one is stored under its hash. */
  function PutFile<V>(s: Store<V>, u: Upload, hash: Bytes -> string): Store<V> {
    if hash(u.data) in s.objects then s else s.(objects := s.objects[hash(u.data) := u.data])
  }

  function InsertRow<V>(s: Store<V>, u: Upload, hash: Bytes -> string): Store<V>
    requires u.contentType.Some?
  {
    s.(documents := s.documents[u.id := Document(u.subject, Filenames.Sanitized(u.filename), u.contentType.value,
                                                 hash(u.data), u.uploadedBy,
                                                 Pending, 0, None)])
  }

  /** `result` and `s'` are what an upload may answer and leave. */
  ghost predicate Uploaded<V>(s: Store<V>, u: Upload, hash: Bytes -> string, result: UploadResult, s': Store<V>) {
    if u.contentType.None? || u.contentType.value !in ALLOWED_CONTENT_TYPES then result == UnsupportedType && s' == s
    else if |u.data| > MAX_FILE_SIZE then result == TooLarge && s' == s
    else if HasFile(s, u.subject, hash(u.data)) then
      && result.Existing? && result.id in s.documents && Same(s.documents[result.id], u.subject, hash(u.data))
      && s' == s
    else result == New(u.id) && s' == InsertRow(PutFile(s, u, hash), u, hash)
  }

  /** What an upload answers, and what a new document is. */
  lemma UploadAnswers<V(!new)>(s: Store<V>, u: Upload, hash: Bytes -> string, result: UploadResult, s': Store<V>)
    requires Uploaded(s, u, hash, result, s')
    ensures result.UnsupportedType? <==>
              u.contentType.None? || u.contentType.value !in
                {"text/plain", "application/pdf",
                 "application/vnd.openxmlformats-officedocument.wordprocessingml.document",
                 "application/vnd.openxmlformats-officedocument.presentationml.presentation",
                 "application/vnd.openxmlformats-officedocument.spreadsheetml.sheet"}
    ensures result.TooLarge? <==> !result.UnsupportedType? && |u.data| > 52428800
    ensures result.Existing? <==> !result.UnsupportedType? && !result.TooLarge? && HasFile(s, u.subject, hash(u.data))
    ensures !result.New? ==> s' == s
    ensures result.New? ==>
              && result.id == u.id && u.contentType.Some?
              && s'.documents == s.documents[u.id := Document(u.subject, Filenames.Sanitized(u.filename),
                                                              u.contentType.value,
                                                              hash(u.data), u.uploadedBy, Pending, 0, None)]
              && s'.collections == s.collections && s'.bumps == s.bumps && hash(u.data) in s'.objects
              && (forall h :: h in s.objects ==> h in s'.objects && s'.objects[h] == s.objects[h])
              && (hash(u.data) !in s.objects ==> s'.objects[hash(u.data)] == u.data)
  {
  }

  /** The first part of an upload, up to the insert: it may answer already, or has the file stored. */
  ghost predicate Prepared<V>(s: Store<V>, u: Upload, hash: Bytes -> string, result: Option<UploadResult>,
                              s': Store<V>) {
    if !Acceptable(u) || HasFile(s, u.subject, hash(u.data)) then
      result.Some? && Uploaded(s, u, hash, result.value, s) && s' == s
    else result.None? && s' == PutFile(s, u, hash)
  }

  /** The insert under the unique index on subject and hash. When another upload has inserted the same file since the
      check, that one's document is the answer. */
  ghost predicate Inserted<V>(s: Store<V>, u: Upload, hash: Bytes -> string, result: UploadResult, s': Store<V>)
    requires Acceptable(u)
  {
    if HasFile(s, u.subject, hash(u.data)) then
      && result.Existing? && result.id in s.documents && Same(s.documents[result.id], u.subject, hash(u.data))
      && s' == s
    else result == New(u.id) && s' == InsertRow(s, u, hash)
  }

  /** Two uploads of the same bytes to the same subject that both pass the check before either inserts: the first to
      insert gets the new document, the other is given it, and the store is consistent. */
  lemma RacingUploads<V(!new)>(s: Store<V>, u: Upload, u2: Upload, hash: Bytes -> string, s1: Store<V>, s2: Store<V>,
                               r: UploadResult, s3: Store<V>, r2: UploadResult, s4: Store<V>)
    requires Consistent(s, hash) && Acceptable(u) && Acceptable(u2) && u.id !in s.documents && u2.id !in s.documents
             && u.id != u2.id
    requires u2.subject == u.subject && u2.data == u.data
    requires !HasFile(s, u.subject, hash(u.data))
    requires Prepared(s, u, hash, None, s1) && Prepared(s1, u2, hash, None, s2)
    requires Inserted(s2, u, hash, r, s3) && Inserted(s3, u2, hash, r2, s4)
    ensures r == New(u.id) && r2 == Existing(u.id) && s4 == s3 && Consistent(s4, hash)
  {
    assert s2 == s1 && s1.documents == s.documents;
    assert !HasFile(s2, u.subject, hash(u.data)) by {
      assert forall id :: id in s.documents ==> !Same(s.documents[id], u.subject, hash(u.data));
    }
    assert Uploaded(s, u, hash, r, s3);
    UploadKeeps(s, u, hash, r, s3);
    assert Same(s3.documents[u.id], u.subject, hash(u.data));
    assert HasFile(s3, u2.subject, hash(u2.data));
    assert Same(s3.documents[r2.id], s3.documents[u.id].subject, s3.documents[u.id].fileHash);
  }

  function WithoutChunks<V>(chunks: map<ChunkId, Chunk<V>>, documentId: string): map<ChunkId, Chunk<V>> {
    map c | c in chunks && chunks[c].documentId != documentId :: chunks[c]
  }

  function Bumped<V>(s: Store<V>, subject: string): Store<V> {
    s.(bumps := s.bumps[subject := (if subject in s.bumps then s.bumps[subject] else 0) + 1])
  }

  ghost function DeleteDocument<V>(s: Store<V>, id: string): Store<V>
    requires id in s.documents
  {
    var d := s.documents[id];
    var cleared := s.(collections := s.collections[d.subject := WithoutChunks(Collection(s, d.subject), id)]);
    var documents := s.documents - {id};
    Bumped(cleared, d.subject).(documents := documents,
                                objects := if Referenced(documents, d.fileHash) then s.objects
                                           else s.objects - {d.fileHash})
  }

  /** The counter behind a subject's content version; absent counts as 0. */
  function BumpsOf<V>(s: Store<V>, subject: string): nat {
    if subject in s.bumps then s.bumps[subject] else 0
  }

  /** A deletion raises the content version of the document's subject by one and leaves every other alone. */
  lemma DeletionBumps<V(!new)>(s: Store<V>, id: string)
    requires id in s.documents
    ensures var s', subject := DeleteDocument(s, id), s.documents[id].subject;
            && subject in s'.bumps && s'.bumps[subject] == (if subject in s.bumps then s.bumps[subject] else 0) + 1
            && forall other :: other != subject ==>
                 (other in s'.bumps <==> other in s.bumps) && (other in s.bumps ==> s'.bumps[other] == s.bumps[other])
  {
  }

  ghost function DocumentsOf<V>(s: Store<V>, subject: string): set<string> {
    set id | id in s.documents && s.documents[id].subject == subject
  }

  ghost function HashesOf<V>(s: Store<V>, subject: string): set<string> {
    set id | id in DocumentsOf(s, subject) :: s.documents[id].fileHash
  }

  ghost function Unreferenced(documents: map<string, Document>, hashes: set<string>): set<string> {
    set h | h in hashes && !Referenced(documents, h)
  }

  ghost function DeleteSubject<V>(s: Store<V>, subject: string): Store<V> {
    if DocumentsOf(s, subject) == {} then s
    else
      var documents := s.documents - DocumentsOf(s, subject);
      Store(documents, s.objects - Unreferenced(documents, HashesOf(s, subject)), s.collections - {subject}, s.bumps)
  }

  // ---- What every operation keeps. ----

  lemma ReferencedAfterInsert(documents: map<string, Document>, id: string, d: Document, h: string)
    requires id !in documents
    ensures Referenced(documents[id := d], h) <==> h == d.fileHash || Referenced(documents, h)
  {
    var more := documents[id := d];
    assert more[id] == d;
    if Referenced(documents, h) {
      var other :| other in documents && documents[other].fileHash == h;
      assert more[other].fileHash == h;
    }
  }

  /** Inserting a row keeps files and rows in step exactly when the row's file is stored, given that all
      other files are in step already. */
  lemma InsertKeepsFilesIff<V(!new)>(s: Store<V>, u: Upload, hash: Bytes -> string)
    requires u.contentType.Some? && u.id !in s.documents
    requires forall h :: h != hash(u.data) ==> (h in s.objects <==> Referenced(s.documents, h))
    requires forall h :: h in s.objects ==> hash(s.objects[h]) == h
    ensures FilesMatch(InsertRow(s, u, hash), hash) <==> hash(u.data) in s.objects
  {
    var s' := InsertRow(s, u, hash);
    forall h
      ensures Referenced(s'.documents, h) <==> h == hash(u.data) || Referenced(s.documents, h)
    {
      ReferencedAfterInsert(s.documents, u.id, s'.documents[u.id], h);
    }
    assert Referenced(s'.documents, hash(u.data));
  }

  lemma InsertKeepsRows<V(!new)>(s: Store<V>, u: Upload, hash: Bytes -> string)
    requires NoDuplicates(s) && ChunksOwned(s)
    requires u.contentType.Some? && u.id !in s.documents && !HasFile(s, u.subject, hash(u.data))
    ensures NoDuplicates(InsertRow(s, u, hash)) && ChunksOwned(InsertRow(s, u, hash))
  {
    var s' := InsertRow(s, u, hash);
    assert forall id :: id in s.documents ==> !Same(s.documents[id], u.subject, hash(u.data));
    forall a, b | a in s'.documents && b in s'.documents
                   && Same(s'.documents[a], s'.documents[b].subject, s'.documents[b].fileHash)
      ensures a == b
    {
      if a != u.id && b != u.id {
        assert Same(s.documents[a], s.documents[b].subject, s.documents[b].fileHash);
      }
    }
    forall subject, c | c in Collection(s', subject)
      ensures OwnedBy(s', subject, Collection(s', subject)[c].documentId)
    {
      assert OwnedBy(s, subject, Collection(s, subject)[c].documentId);
    }
  }

  /** Storing the file of an upload: rows and chunks stay, and only that file can be without a row. */
  lemma PutFileIs<V(!new)>(s: Store<V>, u: Upload, hash: Bytes -> string)
    requires FilesMatch(s, hash)
    ensures var put, h := PutFile(s, u, hash), hash(u.data);
            && put.documents == s.documents && put.collections == s.collections && h in put.objects
            && (forall g :: g != h ==> (g in put.objects <==> Referenced(put.documents, g)))
            && (forall g :: g in put.objects ==> hash(put.objects[g]) == g)
  {
  }

  lemma PutFileKeepsRows<V(!new)>(s: Store<V>, u: Upload, hash: Bytes -> string)
    requires NoDuplicates(s) && ChunksOwned(s)
    ensures NoDuplicates(PutFile(s, u, hash)) && ChunksOwned(PutFile(s, u, hash))
  {
    var put := PutFile(s, u, hash);
    forall a, b | a in put.documents && b in put.documents
                   && Same(put.documents[a], put.documents[b].subject, put.documents[b].fileHash)
      ensures a == b
    {
      assert Same(s.documents[a], s.documents[b].subject, s.documents[b].fileHash);
    }
    forall subject, c | c in Collection(put, subject)
      ensures OwnedBy(put, subject, Collection(put, subject)[c].documentId)
    {
      assert OwnedBy(s, subject, Collection(s, subject)[c].documentId);
    }
  }

  lemma NoCopyAfterPut<V>(s: Store<V>, u: Upload, hash: Bytes -> string)
    requires !HasFile(s, u.subject, hash(u.data))
    ensures !HasFile(PutFile(s, u, hash), u.subject, hash(u.data))
  {
    assert PutFile(s, u, hash).documents == s.documents;
    assert forall id :: id in s.documents ==> !Same(s.documents[id], u.subject, hash(u.data));
  }

  lemma NewDocumentKeeps<V(!new)>(s: Store<V>, u: Upload, hash: Bytes -> string)
    requires Consistent(s, hash) && u.contentType.Some? && u.id !in s.documents && !HasFile(s, u.subject, hash(u.data))
    ensures Consistent(InsertRow(PutFile(s, u, hash), u, hash), hash)
  {
    var put := PutFile(s, u, hash);
    PutFileIs(s, u, hash);
    PutFileKeepsRows(s, u, hash);
    NoCopyAfterPut(s, u, hash);
    InsertKeepsFilesIff(put, u, hash);
    InsertKeepsRows(put, u, hash);
  }

  lemma UploadKeeps<V(!new)>(s: Store<V>, u: Upload, hash: Bytes -> string, result: UploadResult, s': Store<V>)
    requires Consistent(s, hash) && u.id !in s.documents && Uploaded(s, u, hash, result, s')
    ensures Consistent(s', hash)
  {
    if result.New? {
      NewDocumentKeeps(s, u, hash);
    }
  }

  /** Dropping rows and then exactly the files nobody uses any more keeps files and rows in step. */
  lemma DroppingKeepsFiles<V(!new)>(s: Store<V>, s': Store<V>, hash: Bytes -> string, gone: set<string>)
    requires FilesMatch(s, hash) && NoDuplicates(s)
    requires s'.documents == s.documents - gone
    requires forall h :: h in s'.objects <==> h in s.objects && Referenced(s'.documents, h)
    requires forall h :: h in s'.objects ==> s'.objects[h] == s.objects[h]
    ensures FilesMatch(s', hash) && NoDuplicates(s')
  {
    forall h
      ensures h in s'.objects <==> Referenced(s'.documents, h)
    {
      if Referenced(s'.documents, h) {
        var id :| id in s'.documents && s'.documents[id].fileHash == h;
        assert Referenced(s.documents, h) by {
          assert s.documents[id].fileHash == h;
        }
      }
    }
    forall a, b | a in s'.documents && b in s'.documents
                   && Same(s'.documents[a], s'.documents[b].subject, s'.documents[b].fileHash)
      ensures a == b
    {
      assert Same(s.documents[a], s.documents[b].subject, s.documents[b].fileHash);
    }
  }

  lemma StillReferenced<V>(s: Store<V>, id: string, h: string)
    requires id in s.documents && Referenced(s.documents, h) && h != s.documents[id].fileHash
    ensures Referenced(s.documents - {id}, h)
  {
    var other :| other in s.documents && s.documents[other].fileHash == h;
    assert other in s.documents - {id} && (s.documents - {id})[other].fileHash == h;
  }

  lemma DeleteDocumentKeeps<V(!new)>(s: Store<V>, id: string, hash: Bytes -> string)
    requires Consistent(s, hash) && id in s.documents
    ensures Consistent(DeleteDocument(s, id), hash)
  {
    var s' := DeleteDocument(s, id);
    var d := s.documents[id];
    forall h
      ensures h in s'.objects <==> h in s.objects && Referenced(s'.documents, h)
    {
      if h in s.objects && h != d.fileHash {
        StillReferenced(s, id, h);
      }
    }
    DroppingKeepsFiles(s, s', hash, {id});
    forall subject, c | c in Collection(s', subject)
      ensures OwnedBy(s', subject, Collection(s', subject)[c].documentId)
    {
      assert c in Collection(s, subject) && OwnedBy(s, subject, Collection(s, subject)[c].documentId);
    }
  }

  lemma ReferencedElsewhere<V>(s: Store<V>, subject: string, h: string)
    requires Referenced(s.documents, h)
    ensures h in HashesOf(s, subject) || Referenced(s.documents - DocumentsOf(s, subject), h)
  {
    var id :| id in s.documents && s.documents[id].fileHash == h;
    if id !in DocumentsOf(s, subject) {
      assert (s.documents - DocumentsOf(s, subject))[id].fileHash == h;
    }
  }

  lemma DeleteSubjectKeeps<V(!new)>(s: Store<V>, subject: string, hash: Bytes -> string)
    requires Consistent(s, hash)
    ensures Consistent(DeleteSubject(s, subject), hash)
  {
    var s' := DeleteSubject(s, subject);
    if DocumentsOf(s, subject) != {} {
      forall h
        ensures h in s'.objects <==> h in s.objects && Referenced(s'.documents, h)
      {
        if h in s.objects {
          ReferencedElsewhere(s, subject, h);
        }
      }
      DroppingKeepsFiles(s, s', hash, DocumentsOf(s, subject));
      forall other, c | c in Collection(s', other)
        ensures OwnedBy(s', other, Collection(s', other)[c].documentId)
      {
        assert c in Collection(s, other) && OwnedBy(s, other, Collection(s, other)[c].documentId);
      }
    }
  }

  // ---- Whole runs. ----

  datatype Op = Add(upload: Upload) | Remove(id: string) | RemoveSubject(subject: string)

  /** `s'` is a store that `op` may leave. New documents get unused ids; deleting what is not there is refused. */
  ghost predicate Step<V(!new)>(s: Store<V>, op: Op, hash: Bytes -> string, s': Store<V>) {
    match op
    case Add(u) => u.id !in s.documents && exists result :: Uploaded(s, u, hash, result, s')
    case Remove(id) => s' == if id in s.documents then DeleteDocument(s, id) else s
    case RemoveSubject(subject) => s' == DeleteSubject(s, subject)
  }

  ghost predicate IsRun<V(!new)>(stores: seq<Store<V>>, ops: seq<Op>, hash: Bytes -> string) {
    |stores| == |ops| + 1 && forall i :: 0 <= i < |ops| ==> Step(stores[i], ops[i], hash, stores[i + 1])
  }

  lemma StepKeeps<V(!new)>(s: Store<V>, op: Op, hash: Bytes -> string, s': Store<V>)
    requires Consistent(s, hash) && Step(s, op, hash, s')
    ensures Consistent(s', hash)
  {
    match op
    case Add(u) =>
      var result :| Uploaded(s, u, hash, result, s');
      UploadKeeps(s, u, hash, result, s');
    case Remove(id) =>
      if id in s.documents {
        DeleteDocumentKeeps(s, id, hash);
      }
    case RemoveSubject(subject) =>
      DeleteSubjectKeeps(s, subject, hash);
  }

  predicate Touches(op: Op, id: string, subject: string) {
    op == Remove(id) || op == RemoveSubject(subject)
  }

  /** The document is there, with its file. */
  ghost predicate Holds<V>(s: Store<V>, id: string, d: Document, data: Bytes) {
    id in s.documents && s.documents[id] == d && d.fileHash in s.objects && s.objects[d.fileHash] == data
  }

  lemma StepKeepsFile<V(!new)>(s: Store<V>, op: Op, hash: Bytes -> string, s': Store<V>, id: string, d: Document,
                               data: Bytes)
    requires Consistent(s, hash) && Step(s, op, hash, s') && Holds(s, id, d, data) && !Touches(op, id, d.subject)
    ensures Holds(s', id, d, data)
  {
    match op
    case Add(u) =>
      var result :| Uploaded(s, u, hash, result, s');
    case Remove(other) =>
      if other in s.documents {
        assert (s.documents - {other})[id].fileHash == d.fileHash;
      }
    case RemoveSubject(subject) =>
      var documents := s.documents - DocumentsOf(s, subject);
      assert id in documents && documents[id].fileHash == d.fileHash;
  }

  /** A document and the bytes behind it stay as they are through any run that deletes neither it nor its
      subject, whatever happens to other documents with the same content. */
  lemma {:induction false} DocumentKeepsItsFile<V(!new)>(stores: seq<Store<V>>, ops: seq<Op>, hash: Bytes -> string,
                                                         i: nat,
                                                         id: string, d: Document, data: Bytes)
    requires IsRun(stores, ops, hash) && Consistent(stores[0], hash) && i <= |ops| && Holds(stores[0], id, d, data)
    requires forall k :: 0 <= k < |ops| ==> !Touches(ops[k], id, d.subject)
    ensures Consistent(stores[i], hash) && Holds(stores[i], id, d, data)
    decreases i
  {
    if i > 0 {
      DocumentKeepsItsFile(stores, ops, hash, i - 1, id, d, data);
      StepKeeps(stores[i - 1], ops[i - 1], hash, stores[i]);
      StepKeepsFile(stores[i - 1], ops[i - 1], hash, stores[i], id, d, data);
    }
  }

  /** Nothing about the document or its file differs between the two stores. */
  ghost predicate Undisturbed<V>(s: Store<V>, s': Store<V>, id: string)
    requires id in s.documents
  {
    var h := s.documents[id].fileHash;
    && id in s'.documents && s'.documents[id] == s.documents[id]
    && h in s.objects && h in s'.objects && s'.objects[h] == s.objects[h]
  }

  /** Deleting a subject takes all of its documents and chunks and leaves every other subject's documents,
      files and chunks as they were. */
  lemma DeleteSubjectIsolated<V(!new)>(s: Store<V>, subject: string, hash: Bytes -> string)
    requires Consistent(s, hash)
    ensures var s' := DeleteSubject(s, subject);
            && DocumentsOf(s', subject) == {} && Collection(s', subject) == map[]
            && (forall other :: other != subject ==> Collection(s', other) == Collection(s, other))
    ensures forall id :: id in s.documents && s.documents[id].subject != subject ==>
              Undisturbed(s, DeleteSubject(s, subject), id)
  {
    forall id | id in s.documents && s.documents[id].subject != subject
      ensures Undisturbed(s, DeleteSubject(s, subject), id)
    {
      OtherSubjectUndisturbed(s, subject, hash, id);
    }
    if DocumentsOf(s, subject) == {} {
      NoDocumentsNoChunks(s, subject);
    } else {
      assert Collection(DeleteSubject(s, subject), subject) == map[];
    }
  }

  lemma OtherSubjectUndisturbed<V(!new)>(s: Store<V>, subject: string, hash: Bytes -> string, id: string)
    requires Consistent(s, hash) && id in s.documents && s.documents[id].subject != subject
    ensures Undisturbed(s, DeleteSubject(s, subject), id)
  {
    var d := s.documents[id];
    assert Referenced(s.documents, d.fileHash);
    StepKeepsFile(s, RemoveSubject(subject), hash, DeleteSubject(s, subject), id, d, s.objects[d.fileHash]);
  }

  lemma NoDocumentsNoChunks<V(!new)>(s: Store<V>, subject: string)
    requires ChunksOwned(s) && DocumentsOf(s, subject) == {}
    ensures Collection(s, subject) == map[]
  {
    forall c | c in Collection(s, subject)
      ensures Collection(s, subject)[c].documentId in DocumentsOf(s, subject)
    {
      assert OwnedBy(s, subject, Collection(s, subject)[c].documentId);
    }
    assert Collection(s, subject).Keys == {};
  }

  lemma NoChunksOfNew<V(!new)>(s: Store<V>, subject: string, id: string)
    requires ChunksOwned(s) && id !in s.documents
    ensures WithoutChunks(Collection(s, subject), id) == Collection(s, subject)
  {
    forall c | c in Collection(s, subject)
      ensures Collection(s, subject)[c].documentId != id
    {
      assert OwnedBy(s, subject, Collection(s, subject)[c].documentId);
    }
  }

  /** Deleting a document just uploaded restores rows, files and chunks exactly. */
  lemma DeleteUndoesUpload<V(!new)>(s: Store<V>, u: Upload, hash: Bytes -> string, result: UploadResult, s': Store<V>)
    requires Consistent(s, hash) && u.id !in s.documents && Uploaded(s, u, hash, result, s') && result.New?
    ensures var back := DeleteDocument(s', u.id);
            back.documents == s.documents && back.objects == s.objects
    ensures forall subject :: Collection(DeleteDocument(s', u.id), subject) == Collection(s, subject)
  {
    var d := s'.documents[u.id];
    assert d.fileHash == hash(u.data) && d.subject == u.subject;
    RowGoesAgain(s.documents, u.id, d);
    FileGoesAgain(s, u, hash);
    ChunksUnchanged(s, s', u.id);
  }

  lemma RowGoesAgain(documents: map<string, Document>, id: string, d: Document)
    requires id !in documents
    ensures documents[id := d] - {id} == documents
  {
  }

  lemma ChunksUnchanged<V(!new)>(s: Store<V>, s': Store<V>, id: string)
    requires ChunksOwned(s) && id !in s.documents && id in s'.documents && s'.collections == s.collections
    ensures forall subject :: Collection(DeleteDocument(s', id), subject) == Collection(s, subject)
  {
    assert forall subject :: Collection(s', subject) == Collection(s, subject);
    NoChunksOfNew(s, s'.documents[id].subject, id);
  }

  lemma FileGoesAgain<V(!new)>(s: Store<V>, u: Upload, hash: Bytes -> string)
    requires FilesMatch(s, hash)
    ensures var h := hash(u.data);
            (if Referenced(s.documents, h) then PutFile(s, u, hash).objects else PutFile(s, u, hash).objects - {h})
                == s.objects
  {
    assert hash(u.data) in s.objects <==> Referenced(s.documents, hash(u.data));
  }

  /** Uploading the same bytes to the same subject again changes nothing and names the same document. */
  lemma UploadTwice<V(!new)>(s: Store<V>, u: Upload, u2: Upload, hash: Bytes -> string, r1: UploadResult, s1: Store<V>,
                             r2: UploadResult, s2: Store<V>)
    requires Consistent(s, hash) && u.id !in s.documents && Acceptable(u) && Acceptable(u2)
    requires u2.subject == u.subject && u2.data == u.data
    requires Uploaded(s, u, hash, r1, s1) && Uploaded(s1, u2, hash, r2, s2)
    ensures s2 == s1 && r2 == Existing(r1.id)
  {
    UploadKeeps(s, u, hash, r1, s1);
    var h := hash(u.data);
    assert Same(s1.documents[r1.id], u.subject, h);
    assert HasFile(s1, u.subject, h);
    assert Same(s1.documents[r2.id], s1.documents[r1.id].subject, s1.documents[r1.id].fileHash);
  }

  /** An upload that stored its file, or found it stored, before another document is deleted and inserts its
      row afterwards: the store stays consistent exactly when that document's file is a different one or
      somebody else's too. Otherwise the new document has no file. */
  lemma UploadAroundDeleteIff<V(!new)>(s: Store<V>, u: Upload, hash: Bytes -> string, id: string)
    requires Consistent(s, hash) && u.id !in s.documents && Acceptable(u) && id in s.documents
    requires !HasFile(s, u.subject, hash(u.data))
    ensures var d := s.documents[id];
            FilesMatch(InsertRow(DeleteDocument(PutFile(s, u, hash), id), u, hash), hash)
            <==> d.fileHash != hash(u.data) || Referenced(s.documents - {id}, d.fileHash)
  {
    var deleted := DeleteDocument(PutFile(s, u, hash), id);
    FilesAroundDelete(s, u, hash, id);
    InsertKeepsFilesIff(deleted, u, hash);
  }

  lemma FilesAroundDelete<V(!new)>(s: Store<V>, u: Upload, hash: Bytes -> string, id: string)
    requires FilesMatch(s, hash) && id in s.documents
    ensures var deleted, d, h := DeleteDocument(PutFile(s, u, hash), id), s.documents[id], hash(u.data);
            && deleted.documents == s.documents - {id}
            && (forall g :: g != h ==> (g in deleted.objects <==> Referenced(deleted.documents, g)))
            && (forall g :: g in deleted.objects ==> hash(deleted.objects[g]) == g)
            && (h in deleted.objects <==> d.fileHash != h || Referenced(s.documents - {id}, d.fileHash))
  {
    PutFileIs(s, u, hash);
    FilesAfterDelete(PutFile(s, u, hash), hash, id, hash(u.data));
  }

  lemma FilesAfterDelete<V(!new)>(s: Store<V>, hash: Bytes -> string, id: string, h: string)
    requires id in s.documents && h in s.objects
    requires forall g :: g != h ==> (g in s.objects <==> Referenced(s.documents, g))
    requires forall g :: g in s.objects ==> hash(s.objects[g]) == g
    ensures var deleted, d := DeleteDocument(s, id), s.documents[id];
            && deleted.documents == s.documents - {id}
            && (forall g :: g != h ==> (g in deleted.objects <==> Referenced(deleted.documents, g)))
            && (forall g :: g in deleted.objects ==> hash(deleted.objects[g]) == g)
            && (h in deleted.objects <==> d.fileHash != h || Referenced(s.documents - {id}, d.fileHash))
  {
    var d, rest := s.documents[id], s.documents - {id};
    forall g
      ensures Referenced(s.documents, g) <==> g == d.fileHash || Referenced(rest, g)
    {
      assert s.documents == rest[id := d];
      ReferencedAfterInsert(rest, id, d, g);
    }
  }
}

/** The services that change the store. */
module DocumentService {
  import opened Common
  import opened DocumentStore

  datatype Enrollment = Enrollment(subject: string, student: string)

  class Library<V> {
    const hash: Bytes -> string
    var documents: map<string, Document>
    var objects: map<string, Bytes>
    var collections: map<string, map<ChunkId, Chunk<V>>>
    var bumps: map<string, nat>
    var subjects: set<string>
    var enrollments: set<Enrollment>

    constructor (hash: Bytes -> string)
      ensures this.hash == hash && Value() == Store(map[], map[], map[], map[]) && subjects == {} && enrollments == {}
    {
      this.hash := hash;
      subjects, enrollments := {}, {};
      documents, objects, collections, bumps := map[], map[], map[], map[];
    }

    function Value(): Store<V>
      reads this
    {
      Store(documents, objects, collections, bumps)
    }

    /** The document of `subject` with this content, if there is one. */
    method FindCopy(subject: string, fileHash: string) returns (id: Option<string>)
      ensures id.None? <==> !HasFile(Value(), subject, fileHash)
      ensures id.Some? ==> id.value in documents && Same(documents[id.value], subject, fileHash)
    {
      id := None;
      var rest := documents.Keys;
      while rest != {}
        invariant rest <= documents.Keys
        invariant forall k :: k in documents && k !in rest ==> !Same(documents[k], subject, fileHash)
        decreases |rest|
      {
        var k :| k in rest;
        if documents[k].subject == subject && documents[k].fileHash == fileHash {
          return Some(k);
        }
        rest := rest - {k};
      }
    }

    method IsReferenced(fileHash: string) returns (r: bool)
      ensures r == Referenced(documents, fileHash)
    {
      var rest := documents.Keys;
      while rest != {}
        invariant rest <= documents.Keys
        invariant forall k :: k in documents && k !in rest ==> documents[k].fileHash != fileHash
        decreases |rest|
      {
        var k :| k in rest;
        if documents[k].fileHash == fileHash {
          return true;
        }
        rest := rest - {k};
      }
      r := false;
    }

    /** Checks, looks for a copy, and stores the file. */
    method PrepareUpload(u: Upload) returns (result: Option<UploadResult>)
      modifies this`objects
      ensures Prepared(old(Value()), u, hash, result, Value())
    {
      if u.contentType.None? || u.contentType.value !in ALLOWED_CONTENT_TYPES {
        return Some(UnsupportedType);
      }
      if |u.data| > MAX_FILE_SIZE {
        return Some(TooLarge);
      }
      var fileHash := hash(u.data);
      var existing := FindCopy(u.subject, fileHash);
      if existing.Some? {
        return Some(Existing(existing.value));
      }
      if fileHash !in objects {
        objects := objects[fileHash := u.data];
      }
      result := None;
    }

    /** Inserts the row; a duplicate key means that another upload of the same file was faster. */
    method InsertDocument(u: Upload) returns (result: UploadResult)
      requires Acceptable(u) && u.id !in documents
      modifies this`documents
      ensures Inserted(old(Value()), u, hash, result, Value())
    {
      var fileHash := hash(u.data);
      var faster := FindCopy(u.subject, fileHash);
      if faster.Some? {
        return Existing(faster.value);
      }
      var filename := Filenames.Sanitized(u.filename);
      documents := documents[u.id := Document(u.subject, filename, u.contentType.value, fileHash, u.uploadedBy,
                                              Pending, 0, None)];
      result := New(u.id);
    }

    method UploadDocument(u: Upload) returns (result: UploadResult)
      requires u.id !in documents
      modifies this`documents, this`objects
      ensures Uploaded(old(Value()), u, hash, result, Value())
    {
      var early := PrepareUpload(u);
      if early.Some? {
        return early.value;
      }
      result := InsertDocument(u);
    }

    method DeleteDocumentChunks(subject: string, id: string)
      modifies this`collections
      ensures collections == old(collections)[subject := WithoutChunks(Collection(old(Value()), subject), id)]
    {
      var chunks := Collection(Value(), subject);
      collections := collections[subject := WithoutChunks(chunks, id)];
    }

    method UpsertChunks(subject: string, added: map<ChunkId, Chunk<V>>)
      modifies this`collections
      ensures collections == old(collections)[subject := Collection(old(Value()), subject) + added]
    {
      collections := collections[subject := Collection(Value(), subject) + added];
    }

    method SaveDocument(id: string, d: Document)
      modifies this`documents
      ensures documents == old(documents)[id := d]
    {
      documents := documents[id := d];
    }

    method BumpSubjectVersion(subject: string)
      modifies this`bumps
      ensures Value() == Bumped(old(Value()), subject)
    {
      bumps := bumps[subject := (if subject in bumps then bumps[subject] else 0) + 1];
    }

    method DeleteDocumentRow(id: string)
      requires id in documents
      modifies this`documents, this`objects, this`collections, this`bumps
      ensures Value() == DeleteDocument(old(Value()), id)
    {
      var d := documents[id];
      DeleteDocumentChunks(d.subject, id);
      BumpSubjectVersion(d.subject);
      documents := documents - {id};
      var remaining := IsReferenced(d.fileHash);
      if !remaining {
        objects := objects - {d.fileHash};
      }
    }

    method DeleteUnreferenced(hashes: set<string>)
      modifies this`objects
      ensures objects == old(objects) - Unreferenced(documents, hashes)
    {
      var rest := hashes;
      ghost var done: set<string> := {};
      while rest != {}
        invariant done + rest == hashes && done !! rest
        invariant objects == old(objects) - Unreferenced(documents, done)
        decreases |rest|
      {
        var h :| h in rest;
        var remaining := IsReferenced(h);
        if !remaining {
          objects := objects - {h};
        }
        rest, done := rest - {h}, done + {h};
      }
      assert done == hashes;
    }

    /** Documents, chunks and files of a subject. */
    method DeleteSubjectDocuments(subject: string)
      modifies this`documents, this`objects, this`collections
      ensures Value() == DeleteSubject(old(Value()), subject)
    {
      var owned := set id | id in documents && documents[id].subject == subject;
      assert owned == DocumentsOf(Value(), subject);
      if owned == {} {
        return;
      }
      collections := collections - {subject};
      var hashes := set id | id in owned :: documents[id].fileHash;
      assert hashes == HashesOf(old(Value()), subject);
      documents := documents - owned;
      DeleteUnreferenced(hashes);
    }

    /** The subject with everything that belongs to it. */
    method DeleteSubjectRows(subject: string)
      modifies this`documents, this`objects, this`collections, this`subjects, this`enrollments
      ensures Value() == DeleteSubject(old(Value()), subject)
      ensures enrollments == (set e | e in old(enrollments) && e.subject != subject)
              && subjects == old(subjects) - {subject}
    {
      DeleteSubjectDocuments(subject);
      enrollments := set e | e in enrollments && e.subject != subject;
      subjects := subjects - {subject};
    }
  }
}
