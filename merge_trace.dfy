/** The merge job interleaved with the endpoints: while it runs, clients may cancel or poll any
    task, between any two of its steps. The properties of single steps are lifted here to every
    such trace. */
module MergeTrace {
  import opened Wrappers
  import opened AudioMetadata
  import opened Tasks
  import opened MergeSubmit
  import opened MergeRunner

  /** One thing that happens while the job runs: the job takes a step, or a client calls the
      cancel or the status endpoint. */
  datatype Event = RunnerStep(c: Codec) | CancelRequest(key: Key) | PollRequest(key: Key)

  /** A step runs the job; an accepted cancel updates the registry and a rejected one changes
      nothing; a poll changes nothing. */
  function Apply(job: Job, w: World, ph: Phase, e: Event): (World, Phase) {
    match e
    case RunnerStep(c) => Step(job, w, ph, c)
    case CancelRequest(key) =>
      var r := CancelProcessing(w.tasks, key);
      if r.Ok? then (w.(tasks := r.value), ph) else (w, ph)
    case PollRequest(_) => (w, ph)
  }

  /** The state after a whole trace. */
  function Run(job: Job, w: World, ph: Phase, events: seq<Event>): (World, Phase)
    decreases |events|
  {
    if events == [] then (w, ph)
    else
      var (w', ph') := Apply(job, w, ph, events[0]);
      Run(job, w', ph', events[1..])
  }

  /** The replies the polls of a trace receive, in order. */
  function Polls(job: Job, w: World, ph: Phase, events: seq<Event>): (r: seq<Result<Report>>)
    ensures |r| <= |events|
    decreases |events|
  {
    if events == [] then []
    else
      var (w', ph') := Apply(job, w, ph, events[0]);
      var here := if events[0].PollRequest? then [CheckProcessingStatus(w.tasks, events[0].key)] else [];
      here + Polls(job, w', ph', events[1..])
  }

  function RunnerSteps(events: seq<Event>): (r: nat)
    ensures r <= |events|
    decreases |events|
  {
    if events == [] then 0 else (if events[0].RunnerStep? then 1 else 0) + RunnerSteps(events[1..])
  }

  /** Every event keeps the job's invariant. */
  lemma {:induction false} ApplyInv(job: Job, file0: MetadataFile, w: World, ph: Phase, e: Event)
    requires Inv(job, file0, w, ph)
    ensures var (w', ph') := Apply(job, w, ph, e); Inv(job, file0, w', ph')
  {
    match e {
      case RunnerStep(c) => StepInv(job, file0, w, ph, c);
      case CancelRequest(key) =>
        if CancelProcessing(w.tasks, key).Ok? {
          CancelInv(job, file0, w, ph, key);
        }
      case PollRequest(_) =>
    }
  }

  /** Whatever is cancelled or polled in between, the invariant holds after any trace that
      starts from a freshly registered job. */
  lemma {:induction false} RunInv(job: Job, file0: MetadataFile, w: World, ph: Phase, events: seq<Event>)
    requires Inv(job, file0, w, ph)
    ensures var (w', ph') := Run(job, w, ph, events); Inv(job, file0, w', ph')
    decreases |events|
  {
    if events != [] {
      ApplyInv(job, file0, w, ph, events[0]);
      var (w1, ph1) := Apply(job, w, ph, events[0]);
      RunInv(job, file0, w1, ph1, events[1..]);
    }
  }

  /** The outcome of any trace from a fresh registration: a job that returned early has written
      nothing and left no output file; a job that finished has appended exactly one record, its
      own, to the records it started from, and the output file exists. */
  lemma {:induction false} Outcome(job: Job, reg: Registry, file0: MetadataFile, events: seq<Event>)
    ensures var (w, ph) := Run(job, World(RegisterTask(reg, job.key), file0, false), Start, events);
      && (ph == Aborted ==> w.file == file0 && !w.outputOnDisk)
      && (ph == Finished ==> w.outputOnDisk && exists x :: RecordOf(job, x) && w.file == Json(Load(file0) + [x]))
  {
    var w0 := World(RegisterTask(reg, job.key), file0, false);
    InvInit(job, reg, file0);
    RunInv(job, file0, w0, Start, events);
    var (w, ph) := Run(job, w0, Start, events);
    if ph == Finished {
      var x := w.tasks[job.key].fileInfo.value;
      assert RecordOf(job, x) && w.file == Json(Load(file0) + [x]);
    }
  }

  /** A poll sees `completed` only once the record is in the file, and then it is handed that
      record. */
  lemma {:induction false} CompletedOnlyAfterWrite(job: Job, file0: MetadataFile, w: World, ph: Phase)
    requires Inv(job, file0, w, ph)
    requires CheckProcessingStatus(w.tasks, job.key).Ok?
    requires CheckProcessingStatus(w.tasks, job.key).value.status == Completed
    ensures Written(ph)
    ensures CheckProcessingStatus(w.tasks, job.key).value.fileInfo.Some?
    ensures var x := CheckProcessingStatus(w.tasks, job.key).value.fileInfo.value;
      RecordOf(job, x) && w.file == Json(Load(file0) + [x])
  {
  }

  /** Every poll of the job in any trace from a fresh registration that reports `completed`
      carries the job's record. */
  lemma {:induction false} PollsSeeRecord(job: Job, file0: MetadataFile, w: World, ph: Phase, events: seq<Event>)
    requires Inv(job, file0, w, ph)
    ensures forall p :: p in Polls(job, w, ph, events) && p.Ok? && Some(p.value.requestId) == job.key
                        && p.value.status == Completed ==>
              p.value.fileInfo.Some? && RecordOf(job, p.value.fileInfo.value)
    decreases |events|
  {
    if events != [] {
      ApplyInv(job, file0, w, ph, events[0]);
      var (w1, ph1) := Apply(job, w, ph, events[0]);
      PollsSeeRecord(job, file0, w1, ph1, events[1..]);
      if events[0].PollRequest? && CheckProcessingStatus(w.tasks, events[0].key).Ok?
         && Some(CheckProcessingStatus(w.tasks, events[0].key).value.requestId) == job.key
         && CheckProcessingStatus(w.tasks, events[0].key).value.status == Completed {
        assert events[0].key == job.key;
        CompletedOnlyAfterWrite(job, file0, w, ph);
      }
    }
  }

  /** Along any trace whose export does not fail, the progress a poll reads never goes down. */
  lemma {:induction false} ProgressMonotone(job: Job, file0: MetadataFile, w: World, ph: Phase, events: seq<Event>)
    requires Inv(job, file0, w, ph)
    requires forall e :: e in events && e.RunnerStep? ==> e.c.exportError.None?
    ensures ReportedProgress(w, job.key) <= ReportedProgress(Run(job, w, ph, events).0, job.key)
    decreases |events|
  {
    if events != [] {
      var e := events[0];
      ApplyInv(job, file0, w, ph, e);
      var (w1, ph1) := Apply(job, w, ph, e);
      if e.RunnerStep? {
        ProgressNeverDecreases(job, file0, w, ph, e.c);
      }
      assert forall e' :: e' in events[1..] ==> e' in events;
      ProgressMonotone(job, file0, w1, ph1, events[1..]);
    }
  }

  /** The job always returns: it never takes more runner steps than its rank, whatever is
      cancelled or polled in between. */
  lemma {:induction false} RunRank(job: Job, file0: MetadataFile, w: World, ph: Phase, events: seq<Event>)
    requires Inv(job, file0, w, ph)
    ensures var ph' := Run(job, w, ph, events).1;
      Returned(ph') || Rank(job, ph') + RunnerSteps(events) <= Rank(job, ph)
    decreases |events|
  {
    if events != [] {
      var e := events[0];
      ApplyInv(job, file0, w, ph, e);
      var (w1, ph1) := Apply(job, w, ph, e);
      RunRank(job, file0, w1, ph1, events[1..]);
      if e.RunnerStep? && !Returned(ph) {
        StepDecreases(job, file0, w, ph, e.c);
      }
      if Returned(ph) {
        ReturnedStays(job, w, ph, events);
      }
    }
  }

  /** Once returned, a job stays returned. */
  lemma {:induction false} ReturnedStays(job: Job, w: World, ph: Phase, events: seq<Event>)
    requires Returned(ph)
    ensures Run(job, w, ph, events).1 == ph
    decreases |events|
  {
    if events != [] {
      var (w1, ph1) := Apply(job, w, ph, events[0]);
      ReturnedStays(job, w1, ph1, events[1..]);
    }
  }

  /** After `2n + 6` steps of its own the job has returned. */
  lemma {:induction false} Terminates(job: Job, reg: Registry, file0: MetadataFile, events: seq<Event>)
    requires RunnerSteps(events) >= 2 * |job.files| + 6
    ensures Returned(Run(job, World(RegisterTask(reg, job.key), file0, false), Start, events).1)
  {
    var w0 := World(RegisterTask(reg, job.key), file0, false);
    InvInit(job, reg, file0);
    RunInv(job, file0, w0, Start, events);
    RunRank(job, file0, w0, Start, events);
  }
}
