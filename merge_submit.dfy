/** `merge_audio`: the request checks, the registration of the merge task, the lookup of the inputs
    and the job handed to the background runner. */
module MergeSubmit {
  import opened Wrappers
  import opened Seqs
  import opened AudioMetadata
  import opened Tasks
  import PyText
  import MetadataService

  /** The request body. `requestId` defaults to `None`, so a request without one is registered
      under `None`. */
  datatype MergeRequest = MergeRequest(
    audioIds: seq<string>,
    outputName: string,
    requestId: Option<string>,
    normalizeVolume: bool,
    normalizeTargetDb: real)

  /** What the background runner is given: the inputs in merge order, the stripped output name,
      the output file's name and path, the registry key and the gain settings. */
  datatype Job = Job(
    files: seq<Item>,
    outputName: string,
    outputFilename: string,
    outputPath: string,
    key: Key,
    normalize: bool,
    targetDb: real)

  /** The immediate reply: the key the merge task is registered under and the number of inputs. */
  datatype Accepted = Accepted(id: Key, totalFiles: nat)

  /** The lookup loop: for each requested id, the first unmerged record with it, or 404 as soon
      as one id has none. */
  function Resolve(m: seq<Item>, ids: seq<string>): (r: Result<seq<Item>>)
    ensures r.Err? ==> r.error == NotFound
    ensures r.Ok? ==> |r.value| == |ids|
  {
    if ids == [] then Ok([])
    else
      var prev := Resolve(m, ids[..|ids| - 1]);
      var k := FirstIndex(m, UnmergedWithId(ids[|ids| - 1]));
      if prev.Err? then prev
      else if k < 0 then Err(NotFound)
      else Ok(prev.value + [m[k]])
  }

  /** The lookup succeeds exactly when every id has an unmerged record, and then yields, in
      request order, the first unmerged record with each id. */
  lemma {:induction false} ResolveSpec(m: seq<Item>, ids: seq<string>)
    ensures Resolve(m, ids).Ok? <==> forall j :: 0 <= j < |ids| ==> FirstIndex(m, UnmergedWithId(ids[j])) >= 0
    ensures Resolve(m, ids).Ok? ==> forall j :: 0 <= j < |ids| ==>
      Resolve(m, ids).value[j] == m[FirstIndex(m, UnmergedWithId(ids[j]))]
  {
    ResolveOk(m, ids);
    if Resolve(m, ids).Ok? {
      forall j | 0 <= j < |ids| ensures Resolve(m, ids).value[j] == m[FirstIndex(m, UnmergedWithId(ids[j]))] {
        ResolveAt(m, ids, j);
      }
    }
  }

  lemma {:induction false} ResolveOk(m: seq<Item>, ids: seq<string>)
    ensures Resolve(m, ids).Ok? <==> forall j :: 0 <= j < |ids| ==> FirstIndex(m, UnmergedWithId(ids[j])) >= 0
  {
    if ids != [] {
      var init := ids[..|ids| - 1];
      ResolveOk(m, init);
      assert forall j :: 0 <= j < |init| ==> init[j] == ids[j];
    }
  }

  lemma {:induction false} ResolveAt(m: seq<Item>, ids: seq<string>, j: nat)
    requires Resolve(m, ids).Ok? && j < |ids|
    ensures FirstIndex(m, UnmergedWithId(ids[j])) >= 0
    ensures Resolve(m, ids).value[j] == m[FirstIndex(m, UnmergedWithId(ids[j]))]
  {
    var init := ids[..|ids| - 1];
    if j < |ids| - 1 {
      assert init[j] == ids[j];
      ResolveAt(m, init, j);
    }
  }

  /** `merge_audio(request)` on the registry and the loaded records, with `stem` the uuid drawn
      for the output file: the registry afterwards and the job and reply, or an error. */
  function MergeAudio(reg: Registry, m: seq<Item>, req: MergeRequest, stem: string)
    : (r: (Registry, Result<(Job, Accepted)>))
  {
    if req.audioIds == [] || PyText.Strip(req.outputName) == [] then (reg, Err(BadRequest))
    else
      var reg' := RegisterTask(reg, req.requestId);
      var found := Resolve(m, req.audioIds);
      if found.Err? then (reg', Err(NotFound))
      else
        var filename := stem + ".mp3";
        var job := Job(SortByOrder(found.value), PyText.Strip(req.outputName), filename,
                       ProcessedFolder + "/" + filename, req.requestId, req.normalizeVolume,
                       req.normalizeTargetDb);
        (reg', Ok((job, Accepted(req.requestId, |req.audioIds|))))
  }

  /** The checks that come before registration: an empty id list or a blank output name is a
      400 and registers nothing. */
  lemma {:induction false} RejectedBeforeRegistering(reg: Registry, m: seq<Item>, req: MergeRequest, stem: string)
    requires req.audioIds == [] || forall i :: 0 <= i < |req.outputName| ==> PyText.IsSpace(req.outputName[i])
    ensures MergeAudio(reg, m, req, stem) == (reg, Err(BadRequest))
  {
    PyText.StripShape(req.outputName);
  }

  /** Past those checks the merge task is registered, and it stays registered when an id then turns
      out to have no unmerged record. */
  lemma {:induction false} RegisteredBeforeLookup(reg: Registry, m: seq<Item>, req: MergeRequest, stem: string)
    requires req.audioIds != [] && PyText.Strip(req.outputName) != []
    ensures MergeAudio(reg, m, req, stem).0 == RegisterTask(reg, req.requestId)
    ensures MergeAudio(reg, m, req, stem).1.Err? <==>
      exists j :: 0 <= j < |req.audioIds| && FirstIndex(m, UnmergedWithId(req.audioIds[j])) < 0
    ensures MergeAudio(reg, m, req, stem).1.Err? ==> MergeAudio(reg, m, req, stem).1.error == NotFound
  {
    ResolveSpec(m, req.audioIds);
  }

  /** An accepted merge: the inputs are unmerged stored records, one per requested id and with
      that id, sorted by `order` (ties in request order); the reply counts the requested ids; the
      output name is the trimmed request name and the output file an `.mp3` in the processed
      folder; the gain settings are passed on as requested. */
  lemma {:induction false} AcceptedJob(reg: Registry, m: seq<Item>, req: MergeRequest, stem: string)
    requires MergeAudio(reg, m, req, stem).1.Ok?
    ensures var (job, reply) := MergeAudio(reg, m, req, stem).1.value;
      var found := Resolve(m, req.audioIds).value;
      && SortedByOrder(job.files)
      && multiset(job.files) == multiset(found)
      && (forall k :: Filter(KeyIs(k), job.files) == Filter(KeyIs(k), found))
      && |job.files| == |req.audioIds| == reply.totalFiles
      && (forall j :: 0 <= j < |found| ==> found[j].id == req.audioIds[j] && IsUnmerged(found[j]) && found[j] in m)
      && (forall x :: x in job.files ==> x in m && IsUnmerged(x) && x.id in req.audioIds)
      && reply.id == job.key == req.requestId
      && job.outputName == PyText.Strip(req.outputName) && job.outputName != []
      && job.outputFilename == stem + ".mp3"
      && job.outputPath == ProcessedFolder + "/" + job.outputFilename
      && job.normalize == req.normalizeVolume && job.targetDb == req.normalizeTargetDb
  {
    var found := Resolve(m, req.audioIds).value;
    var files := SortByOrder(found);
    ResolveSpec(m, req.audioIds);
    forall k ensures Filter(KeyIs(k), files) == Filter(KeyIs(k), found) {
      SortStable(found, k);
    }
    forall j | 0 <= j < |found| ensures found[j].id == req.audioIds[j] && IsUnmerged(found[j]) && found[j] in m {
      var k := FirstIndex(m, UnmergedWithId(req.audioIds[j]));
      assert UnmergedWithId(req.audioIds[j])(m[k]);
    }
    forall x | x in files ensures x in m && IsUnmerged(x) && x.id in req.audioIds {
      assert x in multiset(files);
      assert x in found;
      var j :| 0 <= j < |found| && found[j] == x;
    }
  }

  /** `merge_audio` as written: checks, registration into the shared registry, the loop that
      looks up each id in the loaded records, the sort, and the reply. */
  method SubmitMerge(registry: TaskRegistry, store: MetadataService.MetadataStore, req: MergeRequest, stem: string)
    returns (r: Result<(Job, Accepted)>)
    modifies registry
    ensures (registry.tasks, r) == MergeAudio(old(registry.tasks), Load(store.file), req, stem)
  {
    if req.audioIds == [] || PyText.Strip(req.outputName) == [] {
      return Err(BadRequest);
    }
    var name := PyText.Strip(req.outputName);
    registry.Register(req.requestId);
    var m := store.LoadRecords();
    var files := [];
    var i := 0;
    while i < |req.audioIds|
      invariant 0 <= i <= |req.audioIds|
      invariant Resolve(m, req.audioIds[..i]) == Ok(files)
    {
      var id := req.audioIds[i];
      assert req.audioIds[..i + 1][..i] == req.audioIds[..i];
      var k := FirstIndex(m, UnmergedWithId(id));
      if k < 0 {
        assert Resolve(m, req.audioIds[..i + 1]).Err?;
        ResolvePrefixError(m, req.audioIds, i + 1);
        return Err(NotFound);
      }
      files := files + [m[k]];
      i := i + 1;
    }
    assert req.audioIds[..|req.audioIds|] == req.audioIds;
    files := SortByOrder(files);
    var filename := stem + ".mp3";
    var job := Job(files, name, filename, ProcessedFolder + "/" + filename, req.requestId,
                   req.normalizeVolume, req.normalizeTargetDb);
    r := Ok((job, Accepted(req.requestId, |req.audioIds|)));
  }

  /** Once a prefix of the ids fails to resolve, the whole list does. */
  lemma {:induction false} ResolvePrefixError(m: seq<Item>, ids: seq<string>, n: nat)
    requires n <= |ids| && Resolve(m, ids[..n]).Err?
    ensures Resolve(m, ids).Err?
    decreases |ids| - n
  {
    if n < |ids| {
      assert ids[..n + 1][..n] == ids[..n];
      ResolvePrefixError(m, ids, n + 1);
    } else {
      assert ids[..n] == ids;
    }
  }
}
