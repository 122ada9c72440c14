/** `process_audio_files`, the background merge job, as a machine that takes one step at a time.
    Between any two steps the merge task can be cancelled or polled; the steps are the stretches of
    the job between its reads of the cancel flag and its writes to the registry. The codec is
    an oracle: each step is told what its load, gain or export call returned. */
module MergeRunner {
  import opened Wrappers
  import opened AudioMetadata
  import opened Tasks
  import opened MergeSubmit

  /** Where the job is.
      Start:         before the empty-input check.
      Probe(i):      first pass (total duration), about to check the flag and load file i.
      Merge(i, ms):  second pass, about to check the flag and load file i; `ms` milliseconds of
                     audio merged so far.
      AfterMerge:    the checkpoint after the merge loop.
      Normalize:     the optional gain step.
      Export:        export, reload, append, save, and status `completed`.
      Final:         the final progress update.
      Finished:      returned after completing.
      Aborted:       returned early (failed or cancelled). */
  datatype Phase =
    | Start
    | Probe(i: nat)
    | Merge(i: nat, ms: nat)
    | AfterMerge(ms: nat)
    | Normalize(ms: nat)
    | Export(ms: nat)
    | Final
    | Finished
    | Aborted

  /** The codec's answer to one step: the length of the file it was asked to load (None when the
      load raised), whether `apply_gain` succeeded, the error `export` raised if any, and the
      uuid drawn for the merged record. Each step reads only the part it needs. */
  datatype Codec = Codec(loadedMs: Option<nat>, gainOk: bool, exportError: Option<string>, recordId: string)

  /** What the job changes: the registry, the metadata file and whether the output file exists. */
  datatype World = World(tasks: Registry, file: MetadataFile, outputOnDisk: bool)

  // ----- registry updates, each guarded by `if request_id in processing_tasks` -----

  function WithStatus(reg: Registry, key: Key, s: Status): (r: Registry)
    ensures r.Keys == reg.Keys
  {
    if key in reg then reg[key := reg[key].(status := s)] else reg
  }

  /** The five keys every progress report sets. */
  function WithProgress(reg: Registry, key: Key, progress: int, stage: string, note: Note, index: nat, total: nat): (r: Registry)
    ensures r.Keys == reg.Keys
  {
    if key in reg then
      reg[key := reg[key].(progress := Some(progress), stage := Some(stage), message := Some(note),
                            currentFileIndex := Some(index), totalFilesCount := Some(total))]
    else reg
  }

  /** The outer handler's report: failed, progress 0, the error text, and the file index set to
      the total when a total was recorded, otherwise both counters 0. */
  function WithFailure(reg: Registry, key: Key, text: string): (r: Registry)
    ensures r.Keys == reg.Keys
  {
    if key in reg then
      var t := reg[key];
      var t' := t.(status := Failed, progress := Some(0), stage := Some("failed"), message := Some(Error(text)));
      reg[key := if t.totalFilesCount.Some? then t'.(currentFileIndex := t.totalFilesCount)
                 else t'.(currentFileIndex := Some(0), totalFilesCount := Some(0))]
    else reg
  }

  /** `status = 'completed'` and `fileInfo`. */
  function WithResult(reg: Registry, key: Key, x: Item): (r: Registry)
    ensures r.Keys == reg.Keys
  {
    if key in reg then reg[key := reg[key].(status := Completed, fileInfo := Some(x))] else reg
  }

  /** `processing_tasks.get(request_id, {}).get('cancelled', False)` */
  predicate CancelRequested(reg: Registry, key: Key) {
    key in reg && reg[key].cancelled
  }

  // ----- the record and the progress numbers -----

  /** The ids of the inputs, in merge order. */
  function Ids(files: seq<Item>): (r: seq<string>)
    ensures |r| == |files| && forall i :: 0 <= i < |files| ==> r[i] == files[i].id
  {
    seq(|files|, i requires 0 <= i < |files| => files[i].id)
  }

  /** The record a completed job appends. The gain target is recorded whenever normalisation
      was requested, whether or not the gain step succeeded. */
  function MergedRecord(job: Job, ms: nat, id: string): Item {
    Item(id, job.outputName, job.outputName, job.outputFilename, job.outputPath, None,
      ms as real / 1000.0, Some(true), None,
      Some(Provenance(Ids(job.files), job.normalize, if job.normalize then Some(job.targetDb) else None)))
  }

  /** The progress reported after merging file `i` of `n`: `int((i + 1) / n * 60)`, taken as
      exact floor division. */
  function MergeProgress(i: nat, n: nat): (p: int)
    requires i < n
    ensures 0 <= p <= 60
    ensures i == n - 1 ==> p == 60
  {
    MulMonotone(i + 1, n, 60);
    DivMonotone((i + 1) * 60, n * 60, n);
    MulDiv(60, n);
    ((i + 1) * 60) / n
  }

  /** The merge progress never goes down from one file to the next. */
  lemma {:induction false} MergeProgressMonotone(i: nat, j: nat, n: nat)
    requires i <= j < n
    ensures MergeProgress(i, n) <= MergeProgress(j, n)
  {
    MulMonotone(i + 1, j + 1, 60);
    DivMonotone((i + 1) * 60, (j + 1) * 60, n);
  }

  lemma {:induction false} MulMonotone(a: nat, b: nat, c: nat)
    requires a <= b
    ensures a * c <= b * c
  {
  }

  lemma {:induction false} DivMonotone(a: nat, b: nat, d: nat)
    requires a <= b && 0 < d
    ensures a / d <= b / d
  {
    var qa, qb := a / d, b / d;
    assert qa * d <= a <= b < (qb + 1) * d;
    MulCancel(qa, qb + 1, d);
  }

  lemma {:induction false} MulDiv(k: nat, n: nat)
    requires 0 < n
    ensures (n * k) / n == k
  {
    var q, r := (n * k) / n, (n * k) % n;
    assert q * n + r == k * n;
    if q < k {
      MulMonotone(q + 1, k, n);
    } else if q > k {
      MulMonotone(k + 1, q, n);
    }
  }

  lemma {:induction false} MulCancel(x: nat, y: nat, d: nat)
    requires x * d < y * d
    ensures x < y
  {
    if y <= x {
      MulMonotone(y, x, d);
    }
  }

  // ----- one step -----

  /** One step of the job from `ph`, given the codec's answer `c`. */
  function Step(job: Job, w: World, ph: Phase, c: Codec): (World, Phase) {
    var n, key := |job.files|, job.key;
    match ph
    case Start =>
      if n == 0 then (w.(tasks := WithStatus(w.tasks, key, Failed)), Aborted) else (w, Probe(0))
    case Probe(i) =>
      if i >= n then (w, Merge(0, 0))
      else if CancelRequested(w.tasks, key) then (w.(tasks := WithStatus(w.tasks, key, Cancelled)), Aborted)
      else if c.loadedMs.None? then (w.(tasks := WithStatus(w.tasks, key, Failed)), Aborted)
      else (w, if i + 1 < n then Probe(i + 1) else Merge(0, 0))
    case Merge(i, ms) =>
      if i >= n then (w, AfterMerge(ms))
      else if CancelRequested(w.tasks, key) then (w.(tasks := WithStatus(w.tasks, key, Cancelled)), Aborted)
      else if c.loadedMs.None? then (w.(tasks := WithStatus(w.tasks, key, Failed)), Aborted)
      else
        var name := job.files[i].displayName;
        var ms' := ms + c.loadedMs.value;
        var tasks := WithProgress(w.tasks, key, MergeProgress(i, n), "merging " + name, Merging(name), i + 1, n);
        (w.(tasks := tasks), if i + 1 < n then Merge(i + 1, ms') else AfterMerge(ms'))
    case AfterMerge(ms) =>
      if CancelRequested(w.tasks, key) then (w.(tasks := WithStatus(w.tasks, key, Cancelled)), Aborted)
      else (w, if job.normalize then Normalize(ms) else Export(ms))
    case Normalize(ms) =>
      if c.gainOk then (w.(tasks := WithProgress(w.tasks, key, 70, "normalizing", Normalizing, n, n)), Export(ms))
      else (w, Export(ms))
    case Export(ms) =>
      if c.exportError.Some? then
        (World(WithFailure(w.tasks, key, c.exportError.value), w.file, false), Aborted)
      else
        var x := MergedRecord(job, ms, c.recordId);
        (World(WithResult(w.tasks, key, x), Json(Load(w.file) + [x]), true), Final)
    case Final =>
      (w.(tasks := WithProgress(w.tasks, key, 100, "completed", Tasks.Done, n, n)), Finished)
    case Finished => (w, Finished)
    case Aborted => (w, Aborted)
  }

  // ----- the invariant of a running job -----

  predicate Returned(ph: Phase) {
    ph == Finished || ph == Aborted
  }

  /** Whether the job has written its record: from the export on, unless it failed. */
  predicate Written(ph: Phase) {
    ph == Final || ph == Finished
  }

  /** The record a job has written has the job's name, file and provenance. */
  predicate RecordOf(job: Job, x: Item) {
    && x.merged == Some(true) && IsMerged(x)
    && x.displayName == job.outputName && x.originalName == job.outputName
    && x.filename == job.outputFilename && x.path == job.outputPath
    && x.order.None?
    && x.provenance == Some(Provenance(Ids(job.files), job.normalize,
                                       if job.normalize then Some(job.targetDb) else None))
  }

  /** The job's entry, phase by phase. Until the record is written the status is `processing`
      unless a cancel arrived, and the cancel flag says which; the progress is absent before the
      first file is merged and then that of the last file merged; once written the entry holds
      the record, and is `completed` unless a cancel came after the export. */
  predicate EntryInv(job: Job, t: Task, ph: Phase) {
    var n := |job.files|;
    && (!Written(ph) && !Returned(ph) ==>
          (t.status == Processing || t.status == Cancelled) && (t.status == Cancelled <==> t.cancelled))
    && (Written(ph) ==> (t.status == Completed || t.status == Cancelled) && t.fileInfo.Some? && RecordOf(job, t.fileInfo.value))
    && (ph == Aborted ==> t.status == Failed || t.status == Cancelled)
    && match ph
       case Start => t.progress.None?
       case Probe(i) => i < n && t.progress.None?
       case Merge(i, _) =>
         && i < n
         && (i == 0 ==> t.progress.None?)
         && (i > 0 ==> t.progress == Some(MergeProgress(i - 1, n)) && t.currentFileIndex == Some(i) && t.totalFilesCount == Some(n))
       case AfterMerge(_) => n > 0 && t.progress == Some(60) && t.totalFilesCount == Some(n)
       case Normalize(_) => job.normalize && n > 0 && t.progress == Some(60) && t.totalFilesCount == Some(n)
       case Export(_) => n > 0 && (t.progress == Some(60) || (job.normalize && t.progress == Some(70))) && t.totalFilesCount == Some(n)
       case Final => n > 0 && (t.progress == Some(60) || (job.normalize && t.progress == Some(70)))
       case Finished => t.progress == Some(100) && t.stage == Some("completed")
       case Aborted => true
  }

  /** The job's invariant, relative to the metadata file `file0` it started from: its entry is
      registered and as above; nothing is written and no output file remains unless the record
      was written, and then the file holds the reloaded records plus exactly that record. */
  predicate Inv(job: Job, file0: MetadataFile, w: World, ph: Phase) {
    && job.key in w.tasks
    && EntryInv(job, w.tasks[job.key], ph)
    && (!Written(ph) ==> w.file == file0 && !w.outputOnDisk)
    && (Written(ph) ==> w.outputOnDisk && w.file == Json(Load(file0) + [w.tasks[job.key].fileInfo.value]))
  }

  /** A freshly registered job satisfies the invariant. */
  lemma {:induction false} InvInit(job: Job, reg: Registry, file0: MetadataFile)
    ensures Inv(job, file0, World(RegisterTask(reg, job.key), file0, false), Start)
  {
  }

  /** Every step of the job keeps the invariant. */
  lemma {:induction false} StepInv(job: Job, file0: MetadataFile, w: World, ph: Phase, c: Codec)
    requires Inv(job, file0, w, ph)
    ensures var (w', ph') := Step(job, w, ph, c); Inv(job, file0, w', ph')
  {
    match ph {
      case Merge(i, ms) => MergeStepInv(job, file0, w, i, ms, c);
      case Export(ms) => ExportStepInv(job, file0, w, ms, c);
      case Start => EarlyStepInv(job, file0, w, ph, c);
      case Probe(_) => EarlyStepInv(job, file0, w, ph, c);
      case _ => LateStepInv(job, file0, w, ph, c);
    }
  }

  lemma {:induction false} MergeStepInv(job: Job, file0: MetadataFile, w: World, i: nat, ms: nat, c: Codec)
    requires Inv(job, file0, w, Merge(i, ms))
    ensures var (w', ph') := Step(job, w, Merge(i, ms), c); Inv(job, file0, w', ph')
  {
  }

  lemma {:induction false} ExportStepInv(job: Job, file0: MetadataFile, w: World, ms: nat, c: Codec)
    requires Inv(job, file0, w, Export(ms))
    ensures var (w', ph') := Step(job, w, Export(ms), c); Inv(job, file0, w', ph')
  {
    if c.exportError.None? {
      assert RecordOf(job, MergedRecord(job, ms, c.recordId));
    }
  }

  lemma {:induction false} EarlyStepInv(job: Job, file0: MetadataFile, w: World, ph: Phase, c: Codec)
    requires Inv(job, file0, w, ph)
    requires ph.Start? || ph.Probe?
    ensures var (w', ph') := Step(job, w, ph, c); Inv(job, file0, w', ph')
  {
  }

  lemma {:induction false} LateStepInv(job: Job, file0: MetadataFile, w: World, ph: Phase, c: Codec)
    requires Inv(job, file0, w, ph)
    requires ph.AfterMerge? || ph.Normalize? || ph.Final? || Returned(ph)
    ensures var (w', ph') := Step(job, w, ph, c); Inv(job, file0, w', ph')
  {
  }

  /** A cancel request keeps the invariant, whenever it arrives. */
  lemma {:induction false} CancelInv(job: Job, file0: MetadataFile, w: World, ph: Phase, key: Key)
    requires Inv(job, file0, w, ph)
    requires CancelProcessing(w.tasks, key).Ok?
    ensures Inv(job, file0, w.(tasks := CancelProcessing(w.tasks, key).value), ph)
  {
  }

  // ----- what one step does -----

  /** Each checkpoint honours a cancel: the job returns with status `cancelled`, writes nothing,
      and leaves no output file. */
  lemma {:induction false} CheckpointHonoursCancel(job: Job, file0: MetadataFile, w: World, ph: Phase, c: Codec)
    requires Inv(job, file0, w, ph)
    requires ph.Probe? || ph.Merge? || ph.AfterMerge?
    requires CancelRequested(w.tasks, job.key)
    ensures var (w', ph') := Step(job, w, ph, c);
      && ph' == Aborted && w'.tasks[job.key].status == Cancelled
      && w'.file == file0 && !w'.outputOnDisk
  {
  }

  /** A load that fails, in either pass, or an empty input list, ends the job as `failed`
      without writing anything. */
  lemma {:induction false} LoadFailureFails(job: Job, file0: MetadataFile, w: World, ph: Phase, c: Codec)
    requires Inv(job, file0, w, ph)
    requires (ph.Start? && job.files == []) ||
             ((ph.Probe? || ph.Merge?) && !CancelRequested(w.tasks, job.key) && c.loadedMs.None?)
    ensures var (w', ph') := Step(job, w, ph, c);
      && ph' == Aborted && w'.tasks[job.key].status == Failed
      && w'.file == file0 && !w'.outputOnDisk
  {
  }

  /** Merging file `i` reports its progress, the file's number and the total. */
  lemma {:induction false} MergeStepReports(job: Job, file0: MetadataFile, w: World, i: nat, ms: nat, c: Codec)
    requires Inv(job, file0, w, Merge(i, ms))
    requires !CancelRequested(w.tasks, job.key) && c.loadedMs.Some?
    ensures var t := Step(job, w, Merge(i, ms), c).0.tasks[job.key];
      && t.progress == Some(MergeProgress(i, |job.files|))
      && t.currentFileIndex == Some(i + 1) && t.totalFilesCount == Some(|job.files|)
      && t.stage == Some("merging " + job.files[i].displayName)
  {
  }

  /** Progress as a poll reads it. */
  function ReportedProgress(w: World, key: Key): int {
    if key in w.tasks then w.tasks[key].progress.GetOr(0) else 0
  }

  /** The reported progress never goes down, except when a failed export resets it to 0. */
  lemma {:induction false} ProgressNeverDecreases(job: Job, file0: MetadataFile, w: World, ph: Phase, c: Codec)
    requires Inv(job, file0, w, ph)
    requires !(ph.Export? && c.exportError.Some?)
    ensures ReportedProgress(w, job.key) <= ReportedProgress(Step(job, w, ph, c).0, job.key)
  {
    var n := |job.files|;
    if ph.Merge? && ph.i > 0 && ph.i < n {
      MergeProgressMonotone(ph.i - 1, ph.i, n);
    }
  }

  /** A failed export: status `failed`, progress 0, the output file removed, nothing written. */
  lemma {:induction false} ExportFailure(job: Job, file0: MetadataFile, w: World, ms: nat, c: Codec)
    requires Inv(job, file0, w, Export(ms))
    requires c.exportError.Some?
    ensures var (w', ph') := Step(job, w, Export(ms), c); var t := w'.tasks[job.key];
      && ph' == Aborted && t.status == Failed && t.progress == Some(0) && t.stage == Some("failed")
      && t.message == Some(Error(c.exportError.value))
      && t.currentFileIndex == Some(|job.files|) && t.totalFilesCount == Some(|job.files|)
      && w'.file == file0 && !w'.outputOnDisk
  {
  }

  /** A successful export appends exactly one record, the job's, to the records reloaded at that
      moment, and only then reports `completed` with that record. */
  lemma {:induction false} ExportSuccess(job: Job, file0: MetadataFile, w: World, ms: nat, c: Codec)
    requires Inv(job, file0, w, Export(ms))
    requires c.exportError.None?
    ensures var (w', ph') := Step(job, w, Export(ms), c); var t := w'.tasks[job.key];
      && ph' == Final && t.status == Completed && t.fileInfo == Some(MergedRecord(job, ms, c.recordId))
      && w'.file == Json(Load(w.file) + [MergedRecord(job, ms, c.recordId)])
      && RecordOf(job, t.fileInfo.value)
      && t.fileInfo.value.duration == ms as real / 1000.0
      && w'.outputOnDisk
  {
  }

  /** The last checkpoint is before the gain step: a cancel that arrives after it is overwritten
      by `completed` when the export succeeds. */
  lemma {:induction false} LateCancelOverwritten(job: Job, file0: MetadataFile, w: World, ms: nat, c: Codec)
    requires Inv(job, file0, w, Export(ms))
    requires CancelProcessing(w.tasks, job.key).Ok?
    requires c.exportError.None?
    ensures var w1 := w.(tasks := CancelProcessing(w.tasks, job.key).value);
      var (w2, ph2) := Step(job, w1, Export(ms), c);
      && w1.tasks[job.key].status == Cancelled
      && ph2 == Final && w2.tasks[job.key].status == Completed && w2.tasks[job.key].cancelled
  {
  }

  /** A cancel between `completed` and the final progress update sticks: the job ends reporting
      `cancelled` with progress 100, and the record stays written. */
  lemma {:induction false} CancelAfterCompletionSticks(job: Job, file0: MetadataFile, w: World, c: Codec)
    requires Inv(job, file0, w, Final)
    requires CancelProcessing(w.tasks, job.key).Ok?
    ensures var w1 := w.(tasks := CancelProcessing(w.tasks, job.key).value);
      var (w2, ph2) := Step(job, w1, Final, c);
      && ph2 == Finished && w2.tasks[job.key].status == Cancelled && w2.tasks[job.key].progress == Some(100)
      && w2.file == w.file
  {
  }

  // ----- termination -----

  /** Steps left at most: every step that has not returned lowers it. */
  function Rank(job: Job, ph: Phase): nat {
    var n := |job.files|;
    match ph
    case Start => 2 * n + 6
    case Probe(i) => if i <= n then 2 * n + 5 - i else 0
    case Merge(i, _) => if i <= n then n + 5 - i else 0
    case AfterMerge(_) => 4
    case Normalize(_) => 3
    case Export(_) => 2
    case Final => 1
    case Finished => 0
    case Aborted => 0
  }

  /** The job returns after at most `2n + 6` steps, whatever the codec answers and whatever is
      cancelled in between. */
  lemma {:induction false} StepDecreases(job: Job, file0: MetadataFile, w: World, ph: Phase, c: Codec)
    requires Inv(job, file0, w, ph) && !Returned(ph)
    ensures Rank(job, Step(job, w, ph, c).1) < Rank(job, ph)
  {
  }
}
