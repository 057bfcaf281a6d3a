/** One upload against one deletion, step by step: exactly which interleavings leave a document without its file. */
module DocumentRace {
  import opened Common
  import opened DocumentStore

  /** What the upload does next, or how it ended. */
  datatype Uploading = Checking | Probing | Putting | Inserting | Over(result: UploadResult)

  /** What the deletion does next; `Counting` asks whether anybody else uses the file. */
  datatype Deleting = Clearing | Bumping | Dropping | Counting | Unlinking | Gone

  datatype Turn = UploadTurn | DeleteTurn

  datatype Race<V> = Race(store: Store<V>, up: Uploading, del: Deleting)

  ghost function Answer<V(!new)>(s: Store<V>, u: Upload, hash: Bytes -> string): Option<UploadResult> {
    if u.contentType.None? || u.contentType.value !in ALLOWED_CONTENT_TYPES then Some(UnsupportedType)
    else if |u.data| > MAX_FILE_SIZE then Some(TooLarge)
    else if HasFile(s, u.subject, hash(u.data)) then
      var id :| id in s.documents && Same(s.documents[id], u.subject, hash(u.data));
      Some(Existing(id))
    else None
  }

  ghost function UploadStep<V(!new)>(s: Store<V>, up: Uploading, u: Upload, hash: Bytes -> string)
    : Pair<Store<V>, Uploading>
  {
    match up
    case Checking =>
      var answer := Answer(s, u, hash);
      Pair(s, if answer.Some? then Over(answer.value) else Probing)
    case Probing => Pair(s, if hash(u.data) in s.objects then Inserting else Putting)
    case Putting => Pair(s.(objects := s.objects[hash(u.data) := u.data]), Inserting)
    case Inserting =>
      var answer := Answer(s, u, hash);
      if answer.Some? then Pair(s, Over(answer.value))
      else if u.contentType.Some? then Pair(InsertRow(s, u, hash), Over(New(u.id)))
      else Pair(s, up)
    case Over(_) => Pair(s, up)
  }

  /** `d` is the row the deletion has loaded. */
  ghost function DeleteStep<V(!new)>(s: Store<V>, del: Deleting, id: string, d: Document): Pair<Store<V>, Deleting> {
    match del
    case Clearing =>
      Pair(s.(collections := s.collections[d.subject := WithoutChunks(Collection(s, d.subject), id)]), Bumping)
    case Bumping => Pair(Bumped(s, d.subject), Dropping)
    case Dropping => Pair(s.(documents := s.documents - {id}), Counting)
    case Counting => Pair(s, if Referenced(s.documents, d.fileHash) then Gone else Unlinking)
    case Unlinking => Pair(s.(objects := s.objects - {d.fileHash}), Gone)
    case Gone => Pair(s, Gone)
  }

  ghost function Move<V(!new)>(r: Race<V>, turn: Turn, u: Upload, hash: Bytes -> string, id: string,
                               d: Document): Race<V> {
    match turn
    case UploadTurn => var Pair(s, up) := UploadStep(r.store, r.up, u, hash); Race(s, up, r.del)
    case DeleteTurn => var Pair(s, del) := DeleteStep(r.store, r.del, id, d); Race(s, r.up, del)
  }

  ghost function After<V(!new)>(s: Store<V>, turns: seq<Turn>, u: Upload, hash: Bytes -> string, id: string): Race<V>
    requires id in s.documents
    decreases |turns|
  {
    if turns == [] then Race(s, Checking, Clearing)
    else Move(After(s, turns[..|turns| - 1], u, hash, id), turns[|turns| - 1], u, hash, id, s.documents[id])
  }

  /** The upload has found its file stored, or has stored it, and has not been answered with an older document. */
  predicate Relies(up: Uploading) {
    up.Inserting? || (up.Over? && up.result.New?)
  }

  /** The deletion removes, as its last step, the file the upload relies on. */
  predicate Snatches<V>(r: Race<V>, turn: Turn, u: Upload, hash: Bytes -> string, d: Document) {
    turn == DeleteTurn && r.del.Unlinking? && Relies(r.up) && d.fileHash == hash(u.data)
  }

  ghost predicate Snatched<V(!new)>(s: Store<V>, turns: seq<Turn>, u: Upload, hash: Bytes -> string, id: string)
    requires id in s.documents
    decreases |turns|
  {
    turns != [] &&
    var before, last := turns[..|turns| - 1], turns[|turns| - 1];
    || Snatched(s, before, u, hash, id)
    || Snatches(After(s, before, u, hash, id), last, u, hash, s.documents[id])
  }

  predicate Dropped(del: Deleting) {
    del.Counting? || del.Unlinking? || del.Gone?
  }

  predicate Stored(up: Uploading) {
    up.Over? && up.result.New?
  }

  predicate Accepted(up: Uploading) {
    up.Probing? || up.Putting? || up.Inserting? || Stored(up)
  }

  /** The rows that were there from the start. */
  function Kept<V>(s: Store<V>, del: Deleting, id: string): map<string, Document> {
    if Dropped(del) then s.documents - {id} else s.documents
  }

  ghost predicate Rows<V(!new)>(r: Race<V>, s: Store<V>, u: Upload, hash: Bytes -> string, id: string) {
    var kept := Kept(s, r.del, id);
    && (Accepted(r.up) ==>
          Acceptable(u) && !HasFile(s.(documents := kept), u.subject, hash(u.data)))
    && (Stored(r.up) ==> r.up.result.id == u.id)
    && r.store.documents ==
         if Stored(r.up) && u.contentType.Some? then InsertRow(s.(documents := kept), u, hash).documents else kept
  }

  ghost predicate Files<V(!new)>(r: Race<V>, u: Upload, hash: Bytes -> string, d: Document, snatched: bool) {
    var s, h := r.store, hash(u.data);
    && (forall g :: g in s.objects ==> hash(s.objects[g]) == g)
    && (forall g :: Referenced(s.documents, g) ==> g in s.objects || (snatched && g == h))
    && (forall g :: g in s.objects ==>
          || Referenced(s.documents, g) || (r.up.Inserting? && g == h)
          || ((r.del.Counting? || r.del.Unlinking?) && g == d.fileHash))
    && (r.up.Inserting? && !snatched ==> h in s.objects)
    && (snatched ==> h !in s.objects && Relies(r.up) && r.del.Gone?)
    && (r.del.Unlinking? && Referenced(s.documents, d.fileHash) ==> d.fileHash == h && Stored(r.up))
  }

  ghost predicate Chunks<V(!new)>(r: Race<V>, s: Store<V>, id: string, d: Document) {
    r.store.collections ==
      if r.del.Clearing? then s.collections else s.collections[d.subject := WithoutChunks(Collection(s, d.subject), id)]
  }

  ghost predicate RaceInv<V(!new)>(r: Race<V>, s: Store<V>, u: Upload, hash: Bytes -> string, id: string, d: Document,
                                   snatched: bool) {
    && id in s.documents && d == s.documents[id] && u.id !in s.documents
    && Rows(r, s, u, hash, id) && Files(r, u, hash, d, snatched) && Chunks(r, s, id, d)
  }

  lemma UploadKeepsRows<V(!new)>(r: Race<V>, s: Store<V>, u: Upload, hash: Bytes -> string, id: string, d: Document)
    requires Rows(r, s, u, hash, id)
    ensures Rows(Move(r, UploadTurn, u, hash, id, d), s, u, hash, id)
  {
  }

  lemma InsertKeepsFiles<V(!new)>(r: Race<V>, s: Store<V>, u: Upload, hash: Bytes -> string, id: string, d: Document,
                                  snatched: bool)
    requires RaceInv(r, s, u, hash, id, d, snatched) && r.up.Inserting?
    ensures Files(Move(r, UploadTurn, u, hash, id, d), u, hash, d, snatched)
  {
    forall g
      ensures Referenced(InsertRow(r.store, u, hash).documents, g)
              <==> g == hash(u.data) || Referenced(r.store.documents, g)
    {
      ReferencedAfterInsert(r.store.documents, u.id, InsertRow(r.store, u, hash).documents[u.id], g);
    }
  }

  lemma UploadKeepsFiles<V(!new)>(r: Race<V>, s: Store<V>, u: Upload, hash: Bytes -> string, id: string, d: Document,
                                  snatched: bool)
    requires RaceInv(r, s, u, hash, id, d, snatched)
    ensures Files(Move(r, UploadTurn, u, hash, id, d), u, hash, d, snatched)
  {
    if r.up.Inserting? {
      InsertKeepsFiles(r, s, u, hash, id, d, snatched);
    }
  }

  lemma DeleteKeepsRows<V(!new)>(r: Race<V>, s: Store<V>, u: Upload, hash: Bytes -> string, id: string, d: Document,
                                 snatched: bool)
    requires RaceInv(r, s, u, hash, id, d, snatched)
    ensures Rows(Move(r, DeleteTurn, u, hash, id, d), s, u, hash, id)
  {
    var r' := Move(r, DeleteTurn, u, hash, id, d);
    if r.del.Dropping? {
      RowDrops(r, s, u, hash, id, d);
    } else {
      assert r'.store.documents == r.store.documents && r'.up == r.up && Kept(s, r'.del, id) == Kept(s, r.del, id);
    }
  }

  lemma FewerRowsNoCopy<V(!new)>(s: Store<V>, documents: map<string, Document>, rest: map<string, Document>,
                                 subject: string, fileHash: string)
    requires !HasFile(s.(documents := documents), subject, fileHash) && rest.Items <= documents.Items
    ensures !HasFile(s.(documents := rest), subject, fileHash)
  {
    forall k | k in rest
      ensures !Same(rest[k], subject, fileHash)
    {
      assert (k, rest[k]) in rest.Items;
    }
  }

  lemma OtherRowGoes(documents: map<string, Document>, added: string, row: Document, id: string)
    requires id != added
    ensures documents[added := row] - {id} == (documents - {id})[added := row]
  {
  }

  lemma RowDrops<V(!new)>(r: Race<V>, s: Store<V>, u: Upload, hash: Bytes -> string, id: string, d: Document)
    requires id in s.documents && u.id !in s.documents && Rows(r, s, u, hash, id) && r.del.Dropping?
    ensures Rows(Move(r, DeleteTurn, u, hash, id, d), s, u, hash, id)
  {
    if Accepted(r.up) {
      FewerRowsNoCopy(s, s.documents, s.documents - {id}, u.subject, hash(u.data));
    }
    if Stored(r.up) {
      OtherRowGoes(s.documents, u.id, r.store.documents[u.id], id);
    }
  }

  lemma DropKeepsFiles<V(!new)>(r: Race<V>, u: Upload, hash: Bytes -> string, id: string, d: Document, snatched: bool)
    requires Files(r, u, hash, d, snatched) && r.del.Dropping? && id in r.store.documents && r.store.documents[id] == d
    ensures Files(Move(r, DeleteTurn, u, hash, id, d), u, hash, d, snatched)
  {
    var rest := r.store.documents - {id};
    forall g
      ensures Referenced(r.store.documents, g) <==> g == d.fileHash || Referenced(rest, g)
    {
      assert r.store.documents == rest[id := d];
      ReferencedAfterInsert(rest, id, d, g);
    }
  }

  lemma UnlinkKeepsFiles<V(!new)>(r: Race<V>, u: Upload, hash: Bytes -> string, id: string, d: Document, snatched: bool)
    requires Files(r, u, hash, d, snatched) && r.del.Unlinking?
    ensures Files(Move(r, DeleteTurn, u, hash, id, d), u, hash, d, snatched || Snatches(r, DeleteTurn, u, hash, d))
  {
  }

  lemma DeleteKeepsFiles<V(!new)>(r: Race<V>, s: Store<V>, u: Upload, hash: Bytes -> string, id: string, d: Document,
                                  snatched: bool)
    requires RaceInv(r, s, u, hash, id, d, snatched)
    ensures Files(Move(r, DeleteTurn, u, hash, id, d), u, hash, d, snatched || Snatches(r, DeleteTurn, u, hash, d))
  {
    if r.del.Dropping? {
      DropKeepsFiles(r, u, hash, id, d, snatched);
    } else if r.del.Unlinking? {
      UnlinkKeepsFiles(r, u, hash, id, d, snatched);
    } else {
      assert Move(r, DeleteTurn, u, hash, id, d).store.objects == r.store.objects;
      assert Move(r, DeleteTurn, u, hash, id, d).store.documents == r.store.documents;
    }
  }

  lemma TurnKeeps<V(!new)>(r: Race<V>, turn: Turn, s: Store<V>, u: Upload, hash: Bytes -> string, id: string,
                           d: Document, snatched: bool)
    requires RaceInv(r, s, u, hash, id, d, snatched)
    ensures RaceInv(Move(r, turn, u, hash, id, d), s, u, hash, id, d, snatched || Snatches(r, turn, u, hash, d))
  {
    match turn
    case UploadTurn =>
      UploadKeepsRows(r, s, u, hash, id, d);
      UploadKeepsFiles(r, s, u, hash, id, d, snatched);
      UploadKeepsChunks(r, s, u, hash, id, d);
    case DeleteTurn =>
      DeleteKeepsRows(r, s, u, hash, id, d, snatched);
      DeleteKeepsFiles(r, s, u, hash, id, d, snatched);
      DeleteKeepsChunks(r, s, u, hash, id, d);
  }

  lemma UploadKeepsChunks<V(!new)>(r: Race<V>, s: Store<V>, u: Upload, hash: Bytes -> string, id: string, d: Document)
    requires Chunks(r, s, id, d)
    ensures Chunks(Move(r, UploadTurn, u, hash, id, d), s, id, d)
  {
  }

  lemma DeleteKeepsChunks<V(!new)>(r: Race<V>, s: Store<V>, u: Upload, hash: Bytes -> string, id: string, d: Document)
    requires Chunks(r, s, id, d)
    ensures Chunks(Move(r, DeleteTurn, u, hash, id, d), s, id, d)
  {
  }

  lemma {:induction false} RaceKeeps<V(!new)>(s: Store<V>, turns: seq<Turn>, u: Upload, hash: Bytes -> string,
                                              id: string)
    requires Consistent(s, hash) && id in s.documents && u.id !in s.documents
    ensures RaceInv(After(s, turns, u, hash, id), s, u, hash, id, s.documents[id], Snatched(s, turns, u, hash, id))
    decreases |turns|
  {
    if turns != [] {
      var before := turns[..|turns| - 1];
      RaceKeeps(s, before, u, hash, id);
      TurnKeeps(After(s, before, u, hash, id), turns[|turns| - 1], s, u, hash, id, s.documents[id],
                Snatched(s, before, u, hash, id));
    }
  }

  /** An upload and the deletion of a document, their steps interleaved in any way: the store ends consistent unless the
      deletion's last step removes a file that the upload has already found stored or has stored. */
  lemma RaceEndsConsistentIff<V(!new)>(s: Store<V>, turns: seq<Turn>, u: Upload, hash: Bytes -> string, id: string)
    requires Consistent(s, hash) && id in s.documents && u.id !in s.documents
    requires var r := After(s, turns, u, hash, id); r.up.Over? && r.del.Gone?
    ensures Consistent(After(s, turns, u, hash, id).store, hash) <==> !Snatched(s, turns, u, hash, id)
  {
    RaceKeeps(s, turns, u, hash, id);
    RaceEnds(After(s, turns, u, hash, id), s, u, hash, id, Snatched(s, turns, u, hash, id));
  }

  lemma RaceEnds<V(!new)>(r: Race<V>, s: Store<V>, u: Upload, hash: Bytes -> string, id: string, snatched: bool)
    requires Consistent(s, hash) && id in s.documents && RaceInv(r, s, u, hash, id, s.documents[id], snatched)
    requires r.up.Over? && r.del.Gone?
    ensures Consistent(r.store, hash) <==> !snatched
  {
    var rest := s.(documents := s.documents - {id});
    EndsWithoutDuplicates(r, s, u, hash, id);
    EndsOwned(r, s, u, hash, id);
    if snatched {
      assert r.store.documents[u.id].fileHash == hash(u.data);
      assert Referenced(r.store.documents, hash(u.data));
    }
  }

  lemma EndsWithoutDuplicates<V(!new)>(r: Race<V>, s: Store<V>, u: Upload, hash: Bytes -> string, id: string)
    requires NoDuplicates(s) && Rows(r, s, u, hash, id) && r.del.Gone? && r.up.Over?
    ensures NoDuplicates(r.store)
  {
    var rest := s.documents - {id};
    var docs := r.store.documents;
    assert Stored(r.up) ==> forall k :: k in rest ==> !Same(rest[k], u.subject, hash(u.data));
    forall a, b | a in docs && b in docs && Same(docs[a], docs[b].subject, docs[b].fileHash)
      ensures a == b
    {
      if a in rest && b in rest && docs[a] == rest[a] && docs[b] == rest[b] {
        assert Same(s.documents[a], s.documents[b].subject, s.documents[b].fileHash);
      } else {
        assert Stored(r.up);
      }
    }
  }

  lemma EndsOwned<V(!new)>(r: Race<V>, s: Store<V>, u: Upload, hash: Bytes -> string, id: string)
    requires ChunksOwned(s) && id in s.documents && u.id !in s.documents && r.del.Gone? && r.up.Over?
    requires Rows(r, s, u, hash, id) && Chunks(r, s, id, s.documents[id])
    ensures ChunksOwned(r.store)
  {
    var d := s.documents[id];
    forall subject, c | c in Collection(r.store, subject)
      ensures OwnedBy(r.store, subject, Collection(r.store, subject)[c].documentId)
    {
      assert c in Collection(s, subject) && Collection(r.store, subject)[c] == Collection(s, subject)[c];
      assert OwnedBy(s, subject, Collection(s, subject)[c].documentId);
    }
  }

  lemma AfterSnoc<V(!new)>(s: Store<V>, turns: seq<Turn>, turn: Turn, u: Upload, hash: Bytes -> string, id: string)
    requires id in s.documents
    ensures After(s, turns + [turn], u, hash, id)
            == Move(After(s, turns, u, hash, id), turn, u, hash, id, s.documents[id])
    ensures Snatched(s, turns + [turn], u, hash, id)
       <==> Snatched(s, turns, u, hash, id) || Snatches(After(s, turns, u, hash, id), turn, u, hash, s.documents[id])
  {
    assert (turns + [turn])[..|turns|] == turns;
  }

  /** The deletion has found that nobody else uses the file, and is about to remove it. */
  lemma AboutToUnlink<V(!new)>(s: Store<V>, u: Upload, hash: Bytes -> string, id: string) returns (turns: seq<Turn>)
    requires id in s.documents && !Referenced(s.documents - {id}, s.documents[id].fileHash)
    ensures var r := After(s, turns, u, hash, id);
            r.up.Checking? && r.del.Unlinking? && r.store.documents == s.documents - {id}
                && r.store.objects == s.objects
  {
    turns := [];
    AfterSnoc(s, turns, DeleteTurn, u, hash, id);
    turns := turns + [DeleteTurn];
    AfterSnoc(s, turns, DeleteTurn, u, hash, id);
    turns := turns + [DeleteTurn];
    AfterSnoc(s, turns, DeleteTurn, u, hash, id);
    turns := turns + [DeleteTurn];
    AfterSnoc(s, turns, DeleteTurn, u, hash, id);
    turns := turns + [DeleteTurn];
  }

  /** The same bytes uploaded again, to this subject or another, between the deletion's question and its last step: the
      new document has no file. */
  lemma ReuploadLosesFile<V(!new)>(s: Store<V>, u: Upload, hash: Bytes -> string, id: string) returns (turns: seq<Turn>)
    requires Consistent(s, hash) && id in s.documents && u.id !in s.documents && Acceptable(u)
    requires s.documents[id].fileHash == hash(u.data) && !Referenced(s.documents - {id}, hash(u.data))
    ensures var r := After(s, turns, u, hash, id);
            r.up == Over(New(u.id)) && r.del.Gone? && !Consistent(r.store, hash)
  {
    turns := AboutToUnlink(s, u, hash, id);
    var r := After(s, turns, u, hash, id);
    assert !HasFile(r.store, u.subject, hash(u.data)) by {
      assert forall k :: k in r.store.documents ==> r.store.documents[k].fileHash != hash(u.data);
    }
    assert hash(u.data) in s.objects by {
      assert Referenced(s.documents, hash(u.data));
    }
    AfterSnoc(s, turns, UploadTurn, u, hash, id);
    turns := turns + [UploadTurn];
    AfterSnoc(s, turns, UploadTurn, u, hash, id);
    turns := turns + [UploadTurn];
    assert After(s, turns, u, hash, id).up.Inserting?;
    AfterSnoc(s, turns, DeleteTurn, u, hash, id);
    turns := turns + [DeleteTurn];
    var r' := After(s, turns, u, hash, id);
    assert !HasFile(r'.store, u.subject, hash(u.data)) by {
      assert r'.store.documents == r.store.documents;
    }
    AfterSnoc(s, turns, UploadTurn, u, hash, id);
    turns := turns + [UploadTurn];
    RaceEndsConsistentIff(s, turns, u, hash, id);
  }

  /** It happens to some consistent store, whatever is uploaded. */
  lemma FileGetsLost<V(!new)>(u: Upload, hash: Bytes -> string) returns (s: Store<V>, turns: seq<Turn>)
    requires Acceptable(u) && u.id != "d"
    ensures Consistent(s, hash) && "d" in s.documents
    ensures var r := After(s, turns, u, hash, "d"); r.up.Over? && r.del.Gone? && !Consistent(r.store, hash)
  {
    var d := Document(u.subject, "", "", hash(u.data), "", Ready, 0, None);
    s := Store(map["d" := d], map[hash(u.data) := u.data], map[], map[]);
    assert Referenced(s.documents, hash(u.data)) by {
      assert s.documents["d"].fileHash == hash(u.data);
    }
    turns := ReuploadLosesFile(s, u, hash, "d");
  }

  // ---- The steps of one operation alone. ----

  /** The deletion's steps with nothing in between are the whole deletion. */
  lemma DeletionAlone<V(!new)>(s: Store<V>, id: string)
    requires id in s.documents
    ensures var d := s.documents[id];
            var Pair(s1, d1) := DeleteStep(s, Clearing, id, d);
            var Pair(s2, d2) := DeleteStep(s1, d1, id, d);
            var Pair(s3, d3) := DeleteStep(s2, d2, id, d);
            var Pair(s4, d4) := DeleteStep(s3, d3, id, d);
            var Pair(s5, d5) := DeleteStep(s4, d4, id, d);
            d5.Gone? && s5 == DeleteDocument(s, id)
  {
    var d := s.documents[id];
    var cleared := s.(collections := s.collections[d.subject := WithoutChunks(Collection(s, d.subject), id)]);
    var bumped := Bumped(cleared, d.subject);
    assert bumped.documents == s.documents && bumped.objects == s.objects;
  }

  /** The upload's steps with nothing in between are the whole upload. */
  lemma UploadAlone<V(!new)>(s: Store<V>, u: Upload, hash: Bytes -> string)
    ensures var Pair(s1, u1) := UploadStep(s, Checking, u, hash);
            var Pair(s2, u2) := UploadStep(s1, u1, u, hash);
            var Pair(s3, u3) := UploadStep(s2, u2, u, hash);
            var Pair(s4, u4) := UploadStep(s3, u3, u, hash);
            u4.Over? && Uploaded(s, u, hash, u4.result, s4)
  {
    if Answer(s, u, hash).None? {
      NoCopyAfterPut(s, u, hash);
      var put := PutFile(s, u, hash);
      assert Answer(put, u, hash).None?;
      assert UploadStep(put, Inserting, u, hash) == Pair(InsertRow(put, u, hash), Over(New(u.id)));
    }
  }
}
