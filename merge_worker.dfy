/** `process_audio_files` as the background thread runs it: on the shared registry and the
    metadata store, one step at a time, each step proved to do what `MergeRunner.Step` says. */
module MergeJob {
  import opened Wrappers
  import opened AudioMetadata
  import opened Tasks
  import opened MergeSubmit
  import opened MergeRunner
  import MetadataService

  class Worker {
    const job: Job
    const registry: TaskRegistry
    const store: MetadataService.MetadataStore
    var phase: Phase
    var outputOnDisk: bool
    /** The metadata file when the job started. */
    ghost const file0: MetadataFile

    constructor (job: Job, registry: TaskRegistry, store: MetadataService.MetadataStore)
      ensures this.job == job && this.registry == registry && this.store == store
      ensures phase == Start && !outputOnDisk && file0 == store.file
    {
      this.job := job;
      this.registry := registry;
      this.store := store;
      phase := Start;
      outputOnDisk := false;
      file0 := store.file;
    }

    /** What the job changes, as a value. */
    function State(): World
      reads this, registry, store
    {
      World(registry.tasks, store.file, outputOnDisk)
    }

    /** `processing_tasks[request_id]['status'] = s`, guarded by the presence of the entry. */
    method SetStatus(s: Status)
      modifies registry
      ensures registry.tasks == WithStatus(old(registry.tasks), job.key, s)
    {
      if job.key in registry.tasks {
        var t := registry.tasks[job.key];
        registry.tasks := registry.tasks[job.key := t.(status := s)];
      }
    }

    /** The five-key progress report. */
    method Report(progress: int, stage: string, note: Note, index: nat, total: nat)
      modifies registry
      ensures registry.tasks == WithProgress(old(registry.tasks), job.key, progress, stage, note, index, total)
    {
      if job.key in registry.tasks {
        var t := registry.tasks[job.key];
        t := t.(progress := Some(progress));
        t := t.(stage := Some(stage));
        t := t.(message := Some(note));
        t := t.(currentFileIndex := Some(index));
        t := t.(totalFilesCount := Some(total));
        registry.tasks := registry.tasks[job.key := t];
      }
    }

    /** One step from the current phase, given the codec's answer. */
    method Step(c: Codec)
      modifies this, registry, store
      ensures (State(), phase) == MergeRunner.Step(job, old(State()), old(phase), c)
    {
      var n := |job.files|;
      match phase {
        case Start =>
          if n == 0 {
            SetStatus(Failed);
            phase := Aborted;
          } else {
            phase := Probe(0);
          }
        case Probe(i) =>
          if i >= n {
            phase := Merge(0, 0);
          } else if job.key in registry.tasks && registry.tasks[job.key].cancelled {
            SetStatus(Cancelled);
            phase := Aborted;
          } else if c.loadedMs.None? {
            SetStatus(Failed);
            phase := Aborted;
          } else {
            phase := if i + 1 < n then Probe(i + 1) else Merge(0, 0);
          }
        case Merge(i, ms) =>
          if i >= n {
            phase := AfterMerge(ms);
          } else if job.key in registry.tasks && registry.tasks[job.key].cancelled {
            SetStatus(Cancelled);
            phase := Aborted;
          } else if c.loadedMs.None? {
            SetStatus(Failed);
            phase := Aborted;
          } else {
            var merged := ms + c.loadedMs.value;
            var name := job.files[i].displayName;
            Report(((i + 1) * 60) / n, "merging " + name, Merging(name), i + 1, n);
            phase := if i + 1 < n then Merge(i + 1, merged) else AfterMerge(merged);
          }
        case AfterMerge(ms) =>
          if job.key in registry.tasks && registry.tasks[job.key].cancelled {
            SetStatus(Cancelled);
            phase := Aborted;
          } else if job.normalize {
            phase := Normalize(ms);
          } else {
            phase := Export(ms);
          }
        case Normalize(ms) =>
          if c.gainOk {
            Report(70, "normalizing", Normalizing, n, n);
          }
          phase := Export(ms);
        case Export(ms) =>
          if c.exportError.Some? {
            outputOnDisk := false;
            if job.key in registry.tasks {
              var t := registry.tasks[job.key];
              t := t.(status := Failed, progress := Some(0), stage := Some("failed"),
                      message := Some(Error(c.exportError.value)));
              if t.totalFilesCount.Some? {
                t := t.(currentFileIndex := t.totalFilesCount);
              } else {
                t := t.(currentFileIndex := Some(0), totalFilesCount := Some(0));
              }
              registry.tasks := registry.tasks[job.key := t];
            }
            phase := Aborted;
          } else {
            outputOnDisk := true;
            var x := MergedRecord(job, ms, c.recordId);
            var m := store.LoadRecords();
            m := m + [x];
            store.Save(m);
            if job.key in registry.tasks {
              var t := registry.tasks[job.key];
              registry.tasks := registry.tasks[job.key := t.(status := Completed, fileInfo := Some(x))];
            }
            phase := Final;
          }
        case Final =>
          Report(100, "completed", Tasks.Done, n, n);
          phase := Finished;
        case Finished =>
        case Aborted =>
      }
    }

    /** The whole job without interruptions, `codec(k)` answering its k-th step: it returns, and
        then it has either written nothing (failed or cancelled) or appended its one record. */
    method ProcessAudioFiles(codec: nat -> Codec)
      requires Inv(job, file0, State(), phase)
      modifies this, registry, store
      ensures Returned(phase) && Inv(job, file0, State(), phase)
    {
      var k := 0;
      while !Returned(phase)
        invariant Inv(job, file0, State(), phase)
        decreases Rank(job, phase)
      {
        StepInv(job, file0, State(), phase, codec(k));
        StepDecreases(job, file0, State(), phase, codec(k));
        Step(codec(k));
        k := k + 1;
      }
    }
  }
}
