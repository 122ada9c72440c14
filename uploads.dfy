/** `upload_audio`: deduplication by content hash against the unmerged records that existed
    before the call, and numbering of the new records after the unmerged ones. */
module Uploads {
  import opened Wrappers
  import opened Seqs
  import opened AudioMetadata
  import PyText

  /** One uploaded file as the handler sees it. What I/O decides arrives as data: `digest` is
      the SHA-256 of the content, None when reading the upload failed; `stored` is false when
      writing it into the upload folder failed; `probedMs` is the length the codec reported, None
      when it could not read the file. `stem` and `newId` are the two fresh uuids drawn for it. */
  datatype UploadedFile = UploadedFile(
    filename: string,
    digest: Option<string>,
    stored: bool,
    probedMs: Option<nat>,
    stem: string,
    newId: string)

  /** One entry of the response: a new record, or the existing record a file duplicates,
      marked `isDuplicate` and carrying the name the file was uploaded under. */
  datatype UploadResult = Created(item: Item) | Duplicate(existing: Item, uploadedName: string)

  /** A record the deduplication map holds: unmerged, with a non-empty hash. */
  predicate Indexed(x: Item) {
    IsUnmerged(x) && x.hash.Some? && x.hash.value != ""
  }

  /** The predicate "is indexed under hash h". */
  function IndexedAs(h: string): Item -> bool {
    (x: Item) => Indexed(x) && x.hash == Some(h)
  }

  /** `{item['hash']: item for item in metadata if ...}`: hash to indexed record, the later record
      winning when two share a hash. */
  function HashIndex(m: seq<Item>): (r: map<string, Item>)
    ensures forall h :: h in r ==> r[h] in m && Indexed(r[h]) && r[h].hash == Some(h)
    ensures forall i :: 0 <= i < |m| && Indexed(m[i]) ==> m[i].hash.value in r
  {
    if m == [] then map[]
    else
      var r := HashIndex(m[..|m| - 1]);
      var x := m[|m| - 1];
      assert forall i :: 0 <= i < |m| - 1 ==> m[i] == m[..|m| - 1][i];
      if Indexed(x) then r[x.hash.value := x] else r
  }

  /** The record kept for a hash is the last indexed record with that hash. */
  lemma {:induction false} HashIndexLast(m: seq<Item>, h: string)
    requires h in HashIndex(m)
    ensures var k := LastIndex(m, IndexedAs(h)); 0 <= k && HashIndex(m)[h] == m[k]
  {
    var x := m[|m| - 1];
    if !IndexedAs(h)(x) {
      HashIndexLast(m[..|m| - 1], h);
    }
  }

  /** The record created for a new file, numbered `order`. */
  function NewRecord(f: UploadedFile, order: int): (x: Item)
    ensures IsUnmerged(x) && x.order == Some(order) && x.hash == f.digest
    ensures x.id == f.newId && x.displayName == x.originalName == PyText.Basename(f.filename)
  {
    var name := PyText.Basename(f.filename);
    var filename := f.stem + PyText.Extension(name);
    Item(f.newId, name, name, filename, UploadFolder + "/" + filename, Some(order),
      if f.probedMs.Some? then f.probedMs.value as real / 1000.0 else 0.0,
      Some(false), f.digest, None)
  }

  /** The state the handler's loop carries: the records, the response so far, the next order. */
  datatype Batch = Batch(metadata: seq<Item>, results: seq<UploadResult>, next: int)

  /** One iteration of the upload loop. A file whose digest is in the index is answered with the
      indexed record; a file that could not be read or written is skipped; any other file becomes
      a new record with the next order number. */
  function UploadOne(index: map<string, Item>, b: Batch, f: UploadedFile): Batch {
    if f.digest.None? then b
    else if f.digest.value in index then
      b.(results := b.results + [Duplicate(index[f.digest.value], PyText.Basename(f.filename))])
    else if !f.stored then b
    else
      var x := NewRecord(f, b.next);
      Batch(b.metadata + [x], b.results + [Created(x)], b.next + 1)
  }

  function UploadAll(index: map<string, Item>, b: Batch, files: seq<UploadedFile>): Batch {
    if files == [] then b
    else UploadOne(index, UploadAll(index, b, files[..|files| - 1]), files[|files| - 1])
  }

  /** The batch an upload starts from: the loaded records, no replies, and the order after the
      last unmerged record. */
  function StartBatch(m: seq<Item>): Batch {
    Batch(m, [], UnmergedCount(m) + 1)
  }

  /** `upload_audio(files)` on the loaded records: 400 for an empty request, otherwise the
      records to save and the response. */
  function UploadAudio(m: seq<Item>, files: seq<UploadedFile>): (r: Result<Batch>)
    ensures r.Err? <==> files == []
    ensures r.Err? ==> r.error == BadRequest
  {
    if files == [] then Err(BadRequest) else Ok(UploadAll(HashIndex(m), StartBatch(m), files))
  }

  // ----- the reference description -----

  /** The predicate "creates a record": readable, written, and not a duplicate of an indexed
      record. */
  function IsFresh(index: map<string, Item>): UploadedFile -> bool {
    (f: UploadedFile) => f.digest.Some? && f.digest.value !in index && f.stored
  }

  /** The predicate "is answered as a duplicate". */
  function IsKnown(index: map<string, Item>): UploadedFile -> bool {
    (f: UploadedFile) => f.digest.Some? && f.digest.value in index
  }

  /** The records for the new files, numbered from `base` in arrival order. */
  function NewRecords(newFiles: seq<UploadedFile>, base: int): (r: seq<Item>)
    ensures |r| == |newFiles|
  {
    seq(|newFiles|, j requires 0 <= j < |newFiles| => NewRecord(newFiles[j], base + j))
  }

  /** The reply to a file whose content is already indexed. */
  function DuplicateReply(index: map<string, Item>, f: UploadedFile): UploadResult
    requires IsKnown(index)(f)
  {
    Duplicate(index[f.digest.value], PyText.Basename(f.filename))
  }

  /** The duplicate replies for the known files, in arrival order. */
  function DuplicateReplies(index: map<string, Item>, known: seq<UploadedFile>): (r: seq<UploadResult>)
    requires forall j :: 0 <= j < |known| ==> IsKnown(index)(known[j])
    ensures |r| == |known|
  {
    seq(|known|, j requires 0 <= j < |known| && IsKnown(index)(known[j]) => DuplicateReply(index, known[j]))
  }

  lemma {:induction false} DuplicateRepliesSnoc(index: map<string, Item>, known: seq<UploadedFile>, f: UploadedFile)
    requires forall j :: 0 <= j < |known| ==> IsKnown(index)(known[j])
    requires IsKnown(index)(f)
    ensures DuplicateReplies(index, known + [f]) == DuplicateReplies(index, known) + [DuplicateReply(index, f)]
  {
  }

  /** The records a response reports as created, in order. */
  function CreatedItems(rs: seq<UploadResult>): seq<Item> {
    if rs == [] then []
    else CreatedItems(rs[..|rs| - 1]) + (if rs[|rs| - 1].Created? then [rs[|rs| - 1].item] else [])
  }

  /** The predicate "is a duplicate reply". */
  function IsDuplicateReply(r: UploadResult): bool {
    r.Duplicate?
  }

  /** One iteration: a new file adds one record numbered with the counter and moves it on;
      every other file leaves records and counter alone. */
  lemma {:induction false} UploadOneRecords(index: map<string, Item>, b: Batch, f: UploadedFile)
    ensures UploadOne(index, b, f).next == b.next + (if IsFresh(index)(f) then 1 else 0)
    ensures UploadOne(index, b, f).metadata == b.metadata + (if IsFresh(index)(f) then [NewRecord(f, b.next)] else [])
  {
  }

  lemma {:induction false} NewRecordsSnoc(fs: seq<UploadedFile>, f: UploadedFile, base: int)
    ensures NewRecords(fs + [f], base) == NewRecords(fs, base) + [NewRecord(f, base + |fs|)]
  {
  }

  /** The loop in closed form, records: the new files, and only they, are appended as records
      numbered on from the counter, in arrival order; the counter moves once per new record. */
  lemma {:induction false} UploadAllRecords(index: map<string, Item>, b: Batch, files: seq<UploadedFile>)
    ensures var newFiles := Filter(IsFresh(index), files);
      var out := UploadAll(index, b, files);
      && out.metadata == b.metadata + NewRecords(newFiles, b.next)
      && out.next == b.next + |newFiles|
  {
    if files != [] {
      var init, f := files[..|files| - 1], files[|files| - 1];
      assert files == init + [f];
      UploadAllRecords(index, b, init);
      FilterAppend(IsFresh(index), init, [f]);
      FreshOne(index, f);
      UploadOneNewRecord(index, UploadAll(index, b, init), f, b.metadata, Filter(IsFresh(index), init), b.next);
    }
  }

  /** One iteration of the records: a new file's record goes after the earlier new records. */
  lemma {:induction false} UploadOneNewRecord(index: map<string, Item>, mid: Batch, f: UploadedFile,
                           before: seq<Item>, newFiles: seq<UploadedFile>, base: int)
    requires mid.metadata == before + NewRecords(newFiles, base)
    requires mid.next == base + |newFiles|
    ensures var newFiles' := newFiles + (if IsFresh(index)(f) then [f] else []);
      && UploadOne(index, mid, f).metadata == before + NewRecords(newFiles', base)
      && UploadOne(index, mid, f).next == base + |newFiles'|
  {
    UploadOneRecords(index, mid, f);
    if IsFresh(index)(f) {
      NewRecordsSnoc(newFiles, f, base);
      var x := NewRecord(f, base + |newFiles|);
      assert (before + NewRecords(newFiles, base)) + [x] == before + (NewRecords(newFiles, base) + [x]);
    } else {
      assert newFiles + [] == newFiles;
    }
  }

  /** The reply one file adds to the response. */
  function ReplyFor(index: map<string, Item>, b: Batch, f: UploadedFile): seq<UploadResult> {
    if IsKnown(index)(f) then [DuplicateReply(index, f)]
    else if IsFresh(index)(f) then [Created(NewRecord(f, b.next))]
    else []
  }

  /** One iteration: a known file is answered as a duplicate of the indexed record, a new file
      as created, and an unreadable or unwritable file not at all. */
  lemma {:induction false} UploadOneReplies(index: map<string, Item>, b: Batch, f: UploadedFile)
    ensures UploadOne(index, b, f).results == b.results + ReplyFor(index, b, f)
    ensures |ReplyFor(index, b, f)| == (if IsKnown(index)(f) || IsFresh(index)(f) then 1 else 0)
  {
  }

  lemma {:induction false} CreatedItemsSnoc(rs: seq<UploadResult>, reply: seq<UploadResult>)
    requires |reply| <= 1
    ensures CreatedItems(rs + reply)
         == CreatedItems(rs) + (if reply != [] && reply[0].Created? then [reply[0].item] else [])
  {
    if reply != [] {
      assert (rs + reply)[..|rs + reply| - 1] == rs;
    } else {
      assert rs + reply == rs;
    }
  }

  /** The loop in closed form, response size: one reply per known or new file. */
  lemma {:induction false} UploadAllReplyCount(index: map<string, Item>, b: Batch, files: seq<UploadedFile>)
    ensures |UploadAll(index, b, files).results|
         == |b.results| + |Filter(IsFresh(index), files)| + |Filter(IsKnown(index), files)|
  {
    if files != [] {
      var init, f := files[..|files| - 1], files[|files| - 1];
      assert files == init + [f];
      var mid := UploadAll(index, b, init);
      assert UploadAll(index, b, files) == UploadOne(index, mid, f);
      UploadAllReplyCount(index, b, init);
      UploadOneReplies(index, mid, f);
      FilterAppend(IsFresh(index), init, [f]);
      FilterAppend(IsKnown(index), init, [f]);
    }
  }

  /** The loop in closed form, created replies: they report exactly the new records, in order. */
  lemma {:induction false} UploadAllCreated(index: map<string, Item>, b: Batch, files: seq<UploadedFile>)
    ensures CreatedItems(UploadAll(index, b, files).results)
         == CreatedItems(b.results) + NewRecords(Filter(IsFresh(index), files), b.next)
  {
    if files != [] {
      var init, f := files[..|files| - 1], files[|files| - 1];
      assert files == init + [f];
      UploadAllCreated(index, b, init);
      UploadAllRecords(index, b, init);
      FilterAppend(IsFresh(index), init, [f]);
      FreshOne(index, f);
      UploadOneCreated(index, UploadAll(index, b, init), f, CreatedItems(b.results), Filter(IsFresh(index), init), b.next);
    }
  }

  lemma {:induction false} FreshOne(index: map<string, Item>, f: UploadedFile)
    ensures Filter(IsFresh(index), [f]) == if IsFresh(index)(f) then [f] else []
  {
    assert [f] == [] + [f];
    FilterSnoc(IsFresh(index), [f], 0);
  }

  /** One iteration of the created replies: a new file's record is reported after the earlier
      new records. */
  lemma {:induction false} UploadOneCreated(index: map<string, Item>, mid: Batch, f: UploadedFile,
                         before: seq<Item>, newFiles: seq<UploadedFile>, base: int)
    requires CreatedItems(mid.results) == before + NewRecords(newFiles, base)
    requires mid.next == base + |newFiles|
    ensures CreatedItems(UploadOne(index, mid, f).results)
         == before + NewRecords(newFiles + (if IsFresh(index)(f) then [f] else []), base)
  {
    UploadOneReplies(index, mid, f);
    var reply := ReplyFor(index, mid, f);
    CreatedItemsSnoc(mid.results, reply);
    if IsFresh(index)(f) {
      NewRecordsSnoc(newFiles, f, base);
      var x := NewRecord(f, base + |newFiles|);
      assert reply == [Created(x)];
      assert (before + NewRecords(newFiles, base)) + [x] == before + (NewRecords(newFiles, base) + [x]);
    } else {
      assert reply == [] || reply[0].Duplicate?;
      assert newFiles + [] == newFiles;
    }
  }

  /** The loop in closed form, duplicates: one duplicate reply per known file, in arrival order,
      each carrying the indexed record. */
  lemma {:induction false} UploadAllDuplicates(index: map<string, Item>, b: Batch, files: seq<UploadedFile>)
    ensures Filter(IsDuplicateReply, UploadAll(index, b, files).results)
         == Filter(IsDuplicateReply, b.results) + DuplicateReplies(index, Filter(IsKnown(index), files))
  {
    if files != [] {
      var init, f := files[..|files| - 1], files[|files| - 1];
      assert files == init + [f];
      UploadAllDuplicates(index, b, init);
      FilterAppend(IsKnown(index), init, [f]);
      KnownOne(index, f);
      UploadOneDuplicates(index, UploadAll(index, b, init), f, Filter(IsDuplicateReply, b.results),
                          Filter(IsKnown(index), init));
    }
  }

  lemma {:induction false} KnownOne(index: map<string, Item>, f: UploadedFile)
    ensures Filter(IsKnown(index), [f]) == if IsKnown(index)(f) then [f] else []
  {
    assert [f] == [] + [f];
    FilterSnoc(IsKnown(index), [f], 0);
  }

  /** One iteration of the duplicate replies: a known file's reply comes after the earlier ones. */
  lemma {:induction false} UploadOneDuplicates(index: map<string, Item>, mid: Batch, f: UploadedFile,
                            before: seq<UploadResult>, known: seq<UploadedFile>)
    requires forall j :: 0 <= j < |known| ==> IsKnown(index)(known[j])
    requires Filter(IsDuplicateReply, mid.results) == before + DuplicateReplies(index, known)
    ensures var known' := known + (if IsKnown(index)(f) then [f] else []);
      && (forall j :: 0 <= j < |known'| ==> IsKnown(index)(known'[j]))
      && Filter(IsDuplicateReply, UploadOne(index, mid, f).results) == before + DuplicateReplies(index, known')
  {
    UploadOneReplies(index, mid, f);
    var reply := ReplyFor(index, mid, f);
    FilterAppend(IsDuplicateReply, mid.results, reply);
    var prior := DuplicateReplies(index, known);
    if IsKnown(index)(f) {
      var d := DuplicateReply(index, f);
      assert reply == [] + [d];
      FilterSnoc(IsDuplicateReply, reply, 0);
      DuplicateRepliesSnoc(index, known, f);
      assert (before + prior) + [d] == before + (prior + [d]);
    } else {
      if reply != [] {
        assert reply == [] + [reply[0]];
        FilterSnoc(IsDuplicateReply, reply, 0);
      }
      assert known + [] == known;
    }
  }

  /** A file whose content matches an unmerged record that existed before the call is answered
      as a duplicate and is not among the files that create records. */
  lemma {:induction false} DuplicateCreatesNothing(m: seq<Item>, f: UploadedFile, i: nat)
    requires i < |m| && Indexed(m[i]) && f.digest == m[i].hash
    ensures IsKnown(HashIndex(m))(f) && !IsFresh(HashIndex(m))(f)
    ensures HashIndex(m)[f.digest.value].hash == f.digest
  {
  }

  /** The index is built once, before the loop: two files with the same new content in one
      request are both stored, as two records with consecutive orders. */
  lemma {:induction false} SameContentTwiceBothStored(m: seq<Item>, f: UploadedFile, g: UploadedFile)
    requires f.digest.Some? && f.digest == g.digest && f.stored && g.stored
    requires forall i :: 0 <= i < |m| ==> m[i].hash != f.digest
    ensures var b := UploadAudio(m, [f, g]).value; var n := UnmergedCount(m);
      && b.metadata == m + [NewRecord(f, n + 1), NewRecord(g, n + 2)]
      && CreatedItems(b.results) == [NewRecord(f, n + 1), NewRecord(g, n + 2)]
      && |b.results| == 2
  {
    var index := HashIndex(m);
    assert f.digest.value !in index;
    FilterAll(IsFresh(index), [f, g]);
    FilterNone(IsKnown(index), [f, g]);
    UploadAllRecords(index, StartBatch(m), [f, g]);
    UploadAllCreated(index, StartBatch(m), [f, g]);
    UploadAllReplyCount(index, StartBatch(m), [f, g]);
  }

  /** Uploading keeps the unmerged records numbered 1..n without gaps or repeats. */
  lemma {:induction false} UploadKeepsDense(m: seq<Item>, files: seq<UploadedFile>)
    requires DenseOrders(m) && files != []
    ensures DenseOrders(UploadAudio(m, files).value.metadata)
  {
    var index := HashIndex(m);
    UploadAllRecords(index, StartBatch(m), files);
    var newFiles := Filter(IsFresh(index), files);
    var added := NewRecords(newFiles, UnmergedCount(m) + 1);
    AppendUnmergedKeepsDense(m, added);
  }

  /** Appending unmerged records numbered on from the unmerged count keeps the numbering dense. */
  lemma {:induction false} AppendUnmergedKeepsDense(m: seq<Item>, added: seq<Item>)
    requires DenseOrders(m)
    requires forall j :: 0 <= j < |added| ==> IsUnmerged(added[j]) && added[j].order == Some(UnmergedCount(m) + 1 + j)
    ensures DenseOrders(m + added)
  {
    var m2 := m + added;
    FilterAppend(IsUnmerged, m, added);
    FilterAll(IsUnmerged, added);
    assert UnmergedCount(m2) == UnmergedCount(m) + |added|;
    forall i, j | 0 <= i < j < |m2| && IsUnmerged(m2[i]) && IsUnmerged(m2[j])
      ensures m2[i].order != m2[j].order
    {
      if j < |m| {
        assert m2[i] == m[i] && m2[j] == m[j];
      } else if i < |m| {
        assert m2[i] == m[i];
      }
    }
  }
}
