/** The metadata file as the handlers use it: each handler loads the records, changes the loaded
    list step by step and saves it back. The class holds what the file holds; each method is one
    handler, written with the handler's loops and proved to compute the function that specifies
    it, so every property proved about those functions holds of the stored records. */
module MetadataService {
  import opened Wrappers
  import opened Seqs
  import opened AudioMetadata
  import opened Uploads
  import opened MetadataEdits
  import opened Reorder
  import PyText

  /** The renumbering loop of `delete_audio`: `current_order` counts the unmerged records met so
      far, and each one gets the count as its order. */
  method RenumberInOrder(rest: seq<Item>) returns (m: seq<Item>)
    ensures m == Renumber(rest, 1)
  {
    m := rest;
    var current := 1;
    var i := 0;
    while i < |m|
      invariant 0 <= i <= |m| == |rest|
      invariant current == 1 + UnmergedCount(rest[..i])
      invariant forall j :: 0 <= j < i ==> m[j] == Renumber(rest, 1)[j]
      invariant m[i..] == rest[i..]
    {
      RenumberAt(rest, 1, i);
      FilterSnoc(IsUnmerged, rest, i);
      if IsUnmerged(m[i]) {
        m := m[i := m[i].(order := Some(current))];
        current := current + 1;
      }
      i := i + 1;
    }
  }

  class MetadataStore {
    var file: MetadataFile

    constructor (f: MetadataFile)
      ensures file == f
    {
      file := f;
    }

    /** `load_metadata()`: the fill-in loop gives every record without a `hash` an empty one. */
    method LoadRecords() returns (m: seq<Item>)
      ensures m == Load(file)
    {
      if !file.Json? {
        return [];
      }
      m := file.records;
      var i := 0;
      while i < |m|
        invariant 0 <= i <= |m| == |file.records|
        invariant forall j :: 0 <= j < i ==> m[j] == WithHash(file.records[j])
        invariant m[i..] == file.records[i..]
      {
        if m[i].hash.None? {
          m := m[i := m[i].(hash := Some(""))];
        }
        i := i + 1;
      }
    }

    /** `save_metadata(metadata)` */
    method Save(m: seq<Item>)
      modifies this
      ensures file == Json(m)
    {
      file := Json(m);
    }

    /** `upload_audio(files)`: the index and the counter are computed once, before the loop;
      each file is answered as a duplicate, skipped, or appended as a new record. */
    method UploadAudio(files: seq<UploadedFile>) returns (r: Result<seq<UploadResult>>)
      modifies this
      ensures var spec := Uploads.UploadAudio(Load(old(file)), files);
        && (r.Err? <==> spec.Err?)
        && (r.Err? ==> r.error == spec.error && file == old(file))
        && (r.Ok? ==> file == Json(spec.value.metadata) && r.value == spec.value.results)
    {
      if files == [] {
        return Err(BadRequest);
      }
      var m := LoadRecords();
      ghost var m0 := m;
      var index := HashIndex(m);
      var next := UnmergedCount(m) + 1;
      var results := [];
      var i := 0;
      while i < |files|
        invariant 0 <= i <= |files|
        invariant Batch(m, results, next) == UploadAll(index, StartBatch(m0), files[..i])
      {
        var f := files[i];
        assert files[..i + 1] == files[..i] + [f];
        assert files[..i + 1][..i] == files[..i];
        var name := PyText.Basename(f.filename);
        if f.digest.Some? {
          if f.digest.value in index {
            results := results + [Duplicate(index[f.digest.value], name)];
          } else if f.stored {
            var x := NewRecord(f, next);
            m := m + [x];
            results := results + [Created(x)];
            next := next + 1;
          }
        }
        i := i + 1;
      }
      assert files[..|files|] == files;
      Save(m);
      r := Ok(results);
    }

    /** `update_audio` (merged = false) and `update_processed` (merged = true): the first record
        of the kind with the id is renamed in place and returned; 404 when there is none. */
    method Rename(id: string, merged: bool, u: AudioUpdate) returns (r: Result<Item>)
      modifies this
      ensures var spec := MetadataEdits.Rename(Load(old(file)), id, merged, u);
        && (r.Err? <==> spec.Err?)
        && (r.Err? ==> r.error == spec.error && file == old(file))
        && (r.Ok? ==> file == Json(spec.value.0) && r.value == spec.value.1)
    {
      var m := LoadRecords();
      var i := 0;
      while i < |m|
        invariant 0 <= i <= |m|
        invariant forall j :: 0 <= j < i ==> !KindWithId(id, merged)(m[j])
      {
        if m[i].id == id && IsMerged(m[i]) == merged {
          assert KindWithId(id, merged)(m[i]);
          if u.displayName.Some? {
            m := m[i := m[i].(displayName := u.displayName.value)];
          }
          Save(m);
          return Ok(m[i]);
        }
        i := i + 1;
      }
      r := Err(NotFound);
    }

    /** `delete_all_audio()`: the merged records are kept, in order; the file of every other
        record is removed. Returns the paths removed. */
    method DeleteAllAudio() returns (removed: seq<string>)
      modifies this
      ensures file == Json(MetadataEdits.DeleteAllAudio(Load(old(file))).0)
      ensures removed == MetadataEdits.DeleteAllAudio(Load(old(file))).1
    {
      var m := LoadRecords();
      var kept := [];
      removed := [];
      var i := 0;
      while i < |m|
        invariant 0 <= i <= |m|
        invariant kept == Filter(IsMerged, m[..i])
        invariant removed == Paths(Filter(IsUnmerged, m[..i]))
      {
        FilterSnoc(IsMerged, m, i);
        FilterSnoc(IsUnmerged, m, i);
        MetadataEdits.PathsSnoc(Filter(IsUnmerged, m[..i]), m[i]);
        if IsMerged(m[i]) {
          kept := kept + [m[i]];
        } else {
          removed := removed + [m[i].path];
        }
        i := i + 1;
      }
      assert m[..|m|] == m;
      Save(kept);
    }

    /** `delete_all_processed()`: the same with the kinds exchanged. */
    method DeleteAllProcessed() returns (removed: seq<string>)
      modifies this
      ensures file == Json(MetadataEdits.DeleteAllProcessed(Load(old(file))).0)
      ensures removed == MetadataEdits.DeleteAllProcessed(Load(old(file))).1
    {
      var m := LoadRecords();
      var kept := [];
      removed := [];
      var i := 0;
      while i < |m|
        invariant 0 <= i <= |m|
        invariant kept == Filter(IsUnmerged, m[..i])
        invariant removed == Paths(Filter(IsMerged, m[..i]))
      {
        FilterSnoc(IsMerged, m, i);
        FilterSnoc(IsUnmerged, m, i);
        MetadataEdits.PathsSnoc(Filter(IsMerged, m[..i]), m[i]);
        if !IsMerged(m[i]) {
          kept := kept + [m[i]];
        } else {
          removed := removed + [m[i].path];
        }
        i := i + 1;
      }
      assert m[..|m|] == m;
      Save(kept);
    }

    /** `delete_audio(id)`: find the first unmerged record with the id, remove it, then walk the
        list numbering the unmerged records 1, 2, ... Returns the path of the removed file; on a
        404 nothing is saved. */
    method DeleteAudio(id: string) returns (r: Result<string>)
      modifies this
      ensures var spec := MetadataEdits.DeleteAudio(Load(old(file)), id);
        && (r.Err? <==> spec.Err?)
        && (r.Err? ==> r.error == spec.error && file == old(file))
        && (r.Ok? ==> file == Json(spec.value.0) && r.value == spec.value.1)
    {
      var m := LoadRecords();
      var k := 0;
      while k < |m| && !(m[k].id == id && IsUnmerged(m[k]))
        invariant 0 <= k <= |m|
        invariant forall j :: 0 <= j < k ==> !UnmergedWithId(id)(m[j])
      {
        k := k + 1;
      }
      if k == |m| {
        return Err(NotFound);
      }
      assert UnmergedWithId(id)(m[k]);
      var path := m[k].path;
      m := RenumberInOrder(m[..k] + m[k + 1..]);
      Save(m);
      r := Ok(path);
    }

    /** `delete_processed_audio(id)`: find the first record with the id whose `merged` is true or
        missing and remove it, without renumbering. */
    method DeleteProcessed(id: string) returns (r: Result<string>)
      modifies this
      ensures var spec := MetadataEdits.DeleteProcessed(Load(old(file)), id);
        && (r.Err? <==> spec.Err?)
        && (r.Err? ==> r.error == spec.error && file == old(file))
        && (r.Ok? ==> file == Json(spec.value.0) && r.value == spec.value.1)
    {
      var m := LoadRecords();
      var k := 0;
      while k < |m| && !(m[k].id == id && m[k].merged.GetOr(true))
        invariant 0 <= k <= |m|
        invariant forall j :: 0 <= j < k ==> !ProcessedMatch(id)(m[j])
      {
        k := k + 1;
      }
      if k == |m| {
        return Err(NotFound);
      }
      assert ProcessedMatch(id)(m[k]);
      var path := m[k].path;
      Save(m[..k] + m[k + 1..]);
      r := Ok(path);
    }

    /** `reorder_audio(newOrder)`: the id-to-record dictionary is built from the loaded list, then
        each listed id's record, if unmerged, gets its position plus one. Returns the new audio
        listing; on an error nothing is saved. */
    method Reorder(newOrder: seq<string>) returns (r: Result<seq<Item>>)
      modifies this
      ensures var spec := ReorderAudio(Load(old(file)), newOrder);
        && (r.Err? <==> spec.Err?)
        && (r.Err? ==> r.error == spec.error && file == old(file))
        && (r.Ok? ==> file == Json(spec.value.0) && r.value == spec.value.1)
    {
      if newOrder == [] {
        return Err(BadRequest);
      }
      var m := LoadRecords();
      var loaded := m;
      if Elements(newOrder) != UnmergedIds(m) {
        return Err(ServerError);
      }
      var i := 0;
      while i < |newOrder|
        invariant 0 <= i <= |newOrder|
        invariant m == AssignOrders(loaded, newOrder[..i])
      {
        AssignOrdersStep(loaded, newOrder, i);
        var k := LastIndex(loaded, HasId(newOrder[i]));
        if k >= 0 && IsUnmerged(loaded[k]) {
          m := m[k := m[k].(order := Some(i + 1))];
        }
        i := i + 1;
      }
      assert newOrder[..|newOrder|] == newOrder;
      Save(m);
      r := Ok(ListAudio(m));
    }
  }
}
