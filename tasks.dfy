/** The `processing_tasks` registry: one entry per merge request, the cancel endpoint that marks
    an entry and the status endpoint that reports it. */
module Tasks {
  import opened Wrappers
  import opened AudioMetadata

  datatype Status = Processing | Completed | Failed | Cancelled

  /** The human-readable `message` of an entry: merging a named file, normalising, done, or the
      text of an error. */
  datatype Note = Merging(name: string) | Normalizing | Done | Error(text: string)

  /** One registry entry. Only `status` and `cancelled` are set when the entry is created; the
      other keys appear as the merge job runs, so they are `Option`s. */
  datatype Task = Task(
    status: Status,
    cancelled: bool,
    progress: Option<int>,
    stage: Option<string>,
    message: Option<Note>,
    currentFileIndex: Option<nat>,
    totalFilesCount: Option<nat>,
    fileInfo: Option<Item>)

  /** A request id as the merge request carries it: the field is optional and defaults to
      `None`, and `None` is then a key like any other. */
  type Key = Option<string>

  type Registry = map<Key, Task>

  /** `{'status': 'processing', 'cancelled': False}` */
  const Registered: Task := Task(Processing, false, None, None, None, None, None, None)

  /** `processing_tasks[request_id] = {...}`: a new entry, replacing any entry with that key. */
  function RegisterTask(reg: Registry, key: Key): (r: Registry)
    ensures key in r && r[key].status == Processing && !r[key].cancelled && r[key].progress.None?
    ensures forall k :: k != key ==> (k in r <==> k in reg) && (k in reg ==> r[k] == reg[k])
  {
    reg[key := Registered]
  }

  /** The ids the two endpoints accept: `if not request_id` rejects a missing id and the empty
      string. */
  predicate Addressable(key: Key) {
    key.Some? && key.value != ""
  }

  /** `cancel_processing`: 400 without a usable id, 404 for an unknown one, and otherwise the entry
      is marked cancelled whatever its status was. */
  function CancelProcessing(reg: Registry, key: Key): (r: Result<Registry>)
    ensures !Addressable(key) ==> r == Err(BadRequest)
    ensures Addressable(key) && key !in reg ==> r == Err(NotFound)
    ensures r.Ok? <==> Addressable(key) && key in reg
  {
    if !Addressable(key) then Err(BadRequest)
    else if key !in reg then Err(NotFound)
    else Ok(reg[key := reg[key].(cancelled := true, status := Cancelled)])
  }

  /** A successful cancel changes only the flag and the status of its own entry: a completed task
      is reported cancelled from then on, its result and progress stay. */
  lemma {:induction false} CancelSpec(reg: Registry, key: Key)
    requires CancelProcessing(reg, key).Ok?
    ensures var r := CancelProcessing(reg, key).value;
      && r.Keys == reg.Keys
      && r[key].cancelled && r[key].status == Cancelled
      && r[key].fileInfo == reg[key].fileInfo && r[key].progress == reg[key].progress
      && r[key].stage == reg[key].stage && r[key].message == reg[key].message
      && r[key].currentFileIndex == reg[key].currentFileIndex
      && r[key].totalFilesCount == reg[key].totalFilesCount
      && forall k :: k in reg && k != key ==> r[k] == reg[k]
  {
  }

  /** Cancelling twice is cancelling once. */
  lemma {:induction false} CancelIdempotent(reg: Registry, key: Key)
    requires CancelProcessing(reg, key).Ok?
    ensures CancelProcessing(CancelProcessing(reg, key).value, key) == CancelProcessing(reg, key)
  {
    var r := CancelProcessing(reg, key).value;
    assert r[key].(cancelled := true, status := Cancelled) == r[key];
    assert r[key := r[key]] == r;
  }

  /** A merge sent without a request id, or with an empty one, registers an entry that neither
      endpoint will ever address. */
  lemma {:induction false} UnaddressableEntry(reg: Registry, key: Key)
    requires !Addressable(key)
    ensures key in RegisterTask(reg, key)
    ensures CancelProcessing(RegisterTask(reg, key), key) == Err(BadRequest)
    ensures CheckProcessingStatus(RegisterTask(reg, key), key) == Err(BadRequest)
  {
  }

  /** The body of a status reply; absent keys of the entry are reported with their defaults. */
  datatype Report = Report(
    requestId: string,
    status: Status,
    progress: int,
    stage: string,
    message: Option<Note>,
    currentFileIndex: nat,
    totalFilesCount: nat,
    fileInfo: Option<Item>)

  /** `check_processing_status`: the same 400/404 as the cancel endpoint; then the entry, with
      `progress` 0, empty stage and message, and file counters 0 where the entry has none yet.
      The merged record is attached only while the status is `completed`. */
  function CheckProcessingStatus(reg: Registry, key: Key): (r: Result<Report>)
    ensures !Addressable(key) ==> r == Err(BadRequest)
    ensures Addressable(key) && key !in reg ==> r == Err(NotFound)
    ensures r.Ok? <==> Addressable(key) && key in reg
    ensures r.Ok? ==> var t := reg[key];
      && Some(r.value.requestId) == key
      && r.value.status == t.status
      && r.value.progress == t.progress.GetOr(0)
      && r.value.stage == t.stage.GetOr("")
      && r.value.message == t.message
      && r.value.currentFileIndex == t.currentFileIndex.GetOr(0)
      && r.value.totalFilesCount == t.totalFilesCount.GetOr(0)
      && (r.value.fileInfo.Some? <==> t.status == Completed && t.fileInfo.Some?)
      && (r.value.fileInfo.Some? ==> r.value.fileInfo == t.fileInfo)
  {
    if !Addressable(key) then Err(BadRequest)
    else if key !in reg then Err(NotFound)
    else
      var t := reg[key];
      Ok(Report(key.value, t.status, t.progress.GetOr(0), t.stage.GetOr(""), t.message,
                t.currentFileIndex.GetOr(0), t.totalFilesCount.GetOr(0),
                if t.status == Completed then t.fileInfo else None))
  }

  /** Once a completed task is cancelled, polling it no longer yields the merged record. */
  lemma {:induction false} CancelHidesResult(reg: Registry, key: Key)
    requires CancelProcessing(reg, key).Ok?
    ensures CheckProcessingStatus(CancelProcessing(reg, key).value, key).Ok?
    ensures CheckProcessingStatus(CancelProcessing(reg, key).value, key).value.status == Cancelled
    ensures CheckProcessingStatus(CancelProcessing(reg, key).value, key).value.fileInfo.None?
  {
  }

  /** The registry as the back end holds it: one shared dictionary that the endpoints and the
      merge job update in place. */
  class TaskRegistry {
    var tasks: Registry

    constructor ()
      ensures tasks == map[]
    {
      tasks := map[];
    }

    /** The registration `merge_audio` performs. */
    method Register(key: Key)
      modifies this
      ensures tasks == old(tasks)[key := Registered]
    {
      tasks := tasks[key := Registered];
    }

    /** `cancel_processing`: on success the entry is updated in place; on an error nothing changes. */
    method Cancel(key: Key) returns (r: Result<()>)
      modifies this
      ensures r.Ok? <==> CancelProcessing(old(tasks), key).Ok?
      ensures r.Err? ==> r.error == CancelProcessing(old(tasks), key).error && tasks == old(tasks)
      ensures r.Ok? ==> tasks == CancelProcessing(old(tasks), key).value
    {
      if key.None? || key.value == "" {
        return Err(BadRequest);
      }
      if key !in tasks {
        return Err(NotFound);
      }
      var t := tasks[key];
      t := t.(cancelled := true);
      t := t.(status := Cancelled);
      tasks := tasks[key := t];
      r := Ok(());
    }

    /** `check_processing_status`, which changes nothing. */
    method CheckStatus(key: Key) returns (r: Result<Report>)
      ensures r == CheckProcessingStatus(tasks, key)
    {
      if key.None? || key.value == "" {
        return Err(BadRequest);
      }
      if key !in tasks {
        return Err(NotFound);
      }
      var t := tasks[key];
      var info := None;
      if t.status == Completed && t.fileInfo.Some? {
        info := t.fileInfo;
      }
      r := Ok(Report(key.value, t.status, t.progress.GetOr(0), t.stage.GetOr(""), t.message,
                     t.currentFileIndex.GetOr(0), t.totalFilesCount.GetOr(0), info));
    }
  }
}
