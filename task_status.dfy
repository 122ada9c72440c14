/** The front end's task list (`taskStatusStore`): the entries the page knows of, keyed by their
    `requestId`, and the entry shown in the progress dialog. Task objects are modelled as maps
    from property names to values; the object spread `{ ...a, ...b }` is the map union `a + b`,
    in which the properties of `b` win. */
module TaskStatus {
  import opened Wrappers
  import opened Seqs

  type Fields<V> = map<string, V>

  /** `t.requestId`: None when the property is absent. Under `===` two absent ids are equal, as
      two `None`s are. */
  function Rid<V>(t: Fields<V>): Option<V> {
    if "requestId" in t then Some(t["requestId"]) else None
  }

  function HasRid<V(==)>(rid: Option<V>): Fields<V> -> bool {
    t => Rid(t) == rid
  }

  function OtherRid<V(==)>(rid: Option<V>): Fields<V> -> bool {
    t => Rid(t) != rid
  }

  /** Overlaying `b` on `a` keeps `b`'s id when it has one and `a`'s otherwise. */
  lemma {:induction false} OverlayRid<V>(a: Fields<V>, b: Fields<V>)
    ensures Rid(a + b) == if "requestId" in b then Rid(b) else Rid(a)
  {
  }

  /** No two tasks share an id. */
  predicate UniqueRids<V(==)>(tasks: seq<Fields<V>>) {
    forall i, j :: 0 <= i < j < |tasks| ==> Rid(tasks[i]) != Rid(tasks[j])
  }

  /** `tasks.find(t => t.requestId === rid)`: the first task with the id, None when there is none. */
  function Find<V(==)>(tasks: seq<Fields<V>>, rid: Option<V>): (r: Option<Fields<V>>)
    ensures r.None? <==> forall i :: 0 <= i < |tasks| ==> Rid(tasks[i]) != rid
    ensures r.Some? ==> exists i :: 0 <= i < |tasks| && r.value == tasks[i] && Rid(tasks[i]) == rid &&
                                    forall j :: 0 <= j < i ==> Rid(tasks[j]) != rid
  {
    var k := FirstIndex(tasks, HasRid(rid));
    if k < 0 then None else Some(tasks[k])
  }

  /** `addTask(task)`: the new entry is merged into the first entry with its id, or appended; it
      becomes the current task when there is none or the current one has its id. */
  function Added<V(==)>(tasks: seq<Fields<V>>, current: Option<Fields<V>>, task: Fields<V>)
    : (seq<Fields<V>>, Option<Fields<V>>)
  {
    var idx := FirstIndex(tasks, HasRid(Rid(task)));
    var tasks' := if idx >= 0 then tasks[idx := tasks[idx] + task] else tasks + [task];
    (tasks', if current.None? || Rid(current.value) == Rid(task) then Find(tasks', Rid(task)) else current)
  }

  /** A task with a new id is appended, and shown when nothing else is. */
  lemma {:induction false} AddNew<V>(tasks: seq<Fields<V>>, current: Option<Fields<V>>, task: Fields<V>)
    requires forall i :: 0 <= i < |tasks| ==> Rid(tasks[i]) != Rid(task)
    ensures Added(tasks, current, task).0 == tasks + [task]
    ensures Added(tasks, current, task).1 ==
      if current.None? || Rid(current.value) == Rid(task) then Some(task) else current
  {
    var t' := tasks + [task];
    assert HasRid(Rid(task))(t'[|tasks|]);
    assert FirstIndex(t', HasRid(Rid(task))) == |tasks|;
  }

  /** A task with a known id is merged into the first entry with that id: the list keeps its
      length and its other entries, and the merged entry is shown if its id was shown or
      nothing was. */
  lemma {:induction false} AddKnown<V>(tasks: seq<Fields<V>>, current: Option<Fields<V>>, task: Fields<V>, i: nat)
    requires i < |tasks| && Rid(tasks[i]) == Rid(task)
    requires forall j :: 0 <= j < i ==> Rid(tasks[j]) != Rid(task)
    ensures var t' := Added(tasks, current, task).0;
      && |t'| == |tasks|
      && t'[i] == tasks[i] + task
      && (forall j :: 0 <= j < |tasks| && j != i ==> t'[j] == tasks[j])
    ensures Added(tasks, current, task).1 ==
      if current.None? || Rid(current.value) == Rid(task) then Some(tasks[i] + task) else current
  {
    assert HasRid(Rid(task))(tasks[i]);
    var t' := tasks[i := tasks[i] + task];
    OverlayRid(tasks[i], task);
    assert HasRid(Rid(task))(t'[i]);
    assert FirstIndex(t', HasRid(Rid(task))) == i;
  }

  /** Adding keeps the ids unique, and the added id is then present. */
  lemma {:induction false} AddKeepsUnique<V>(tasks: seq<Fields<V>>, current: Option<Fields<V>>, task: Fields<V>)
    requires UniqueRids(tasks)
    ensures UniqueRids(Added(tasks, current, task).0)
    ensures Find(Added(tasks, current, task).0, Rid(task)).Some?
  {
    var t' := Added(tasks, current, task).0;
    var idx := FirstIndex(tasks, HasRid(Rid(task)));
    if idx < 0 {
      assert t'[|tasks|] == task;
    } else {
      OverlayRid(tasks[idx], task);
      assert HasRid(Rid(task))(tasks[idx]);
      assert forall j :: 0 <= j < |t'| ==> Rid(t'[j]) == Rid(tasks[j]);
    }
  }

  /** `updateTask(rid, update)`: merges the update into the first entry with the id and
      refreshes the current task if it has that id; nothing happens for an unknown id. */
  function Updated<V(==)>(tasks: seq<Fields<V>>, current: Option<Fields<V>>, rid: Option<V>, update: Fields<V>)
    : (seq<Fields<V>>, Option<Fields<V>>)
  {
    var idx := FirstIndex(tasks, HasRid(rid));
    if idx < 0 then (tasks, current)
    else
      var tasks' := tasks[idx := tasks[idx] + update];
      (tasks', if current.Some? && Rid(current.value) == rid then Some(tasks'[idx]) else current)
  }

  /** An update for an id no task has changes nothing. */
  lemma {:induction false} UpdateUnknown<V>(tasks: seq<Fields<V>>, current: Option<Fields<V>>, rid: Option<V>, update: Fields<V>)
    requires forall i :: 0 <= i < |tasks| ==> Rid(tasks[i]) != rid
    ensures Updated(tasks, current, rid, update) == (tasks, current)
  {
    assert FirstIndex(tasks, HasRid(rid)) == -1;
  }

  /** An update for a known id changes that entry only, and the current task only if it has the
      id. */
  lemma {:induction false} UpdateKnown<V>(tasks: seq<Fields<V>>, current: Option<Fields<V>>, rid: Option<V>, update: Fields<V>, i: nat)
    requires i < |tasks| && Rid(tasks[i]) == rid
    requires forall j :: 0 <= j < i ==> Rid(tasks[j]) != rid
    ensures var (t', c') := Updated(tasks, current, rid, update);
      && |t'| == |tasks|
      && t'[i] == tasks[i] + update
      && (forall j :: 0 <= j < |tasks| && j != i ==> t'[j] == tasks[j])
      && c' == if current.Some? && Rid(current.value) == rid then Some(tasks[i] + update) else current
  {
    assert HasRid(rid)(tasks[i]);
    assert FirstIndex(tasks, HasRid(rid)) == i;
  }

  /** An update that does not carry a different id keeps the ids unique. */
  lemma {:induction false} UpdateKeepsUnique<V>(tasks: seq<Fields<V>>, current: Option<Fields<V>>, rid: Option<V>, update: Fields<V>)
    requires UniqueRids(tasks)
    requires "requestId" in update ==> Some(update["requestId"]) == rid
    ensures UniqueRids(Updated(tasks, current, rid, update).0)
  {
    var idx := FirstIndex(tasks, HasRid(rid));
    if idx >= 0 {
      OverlayRid(tasks[idx], update);
      assert HasRid(rid)(tasks[idx]);
      var t' := Updated(tasks, current, rid, update).0;
      assert forall j :: 0 <= j < |t'| ==> Rid(t'[j]) == Rid(tasks[j]);
    }
  }

  /** `removeTask(rid)`: every task with the id goes; the current task is cleared if it had it. */
  function Removed<V(==)>(tasks: seq<Fields<V>>, current: Option<Fields<V>>, rid: Option<V>)
    : (seq<Fields<V>>, Option<Fields<V>>)
  {
    (Filter(OtherRid(rid), tasks), if current.Some? && Rid(current.value) == rid then None else current)
  }

  /** The entries that remain are exactly those with another id; the current task is cleared
      exactly when it had the id. */
  lemma {:induction false} RemoveSpec<V>(tasks: seq<Fields<V>>, current: Option<Fields<V>>, rid: Option<V>)
    ensures var (t', c') := Removed(tasks, current, rid);
      && (forall x :: x in t' <==> x in tasks && Rid(x) != rid)
      && Find(t', rid).None?
      && (c'.None? <==> current.None? || Rid(current.value) == rid)
      && (c'.Some? ==> c' == current)
  {
    FilterMembers(OtherRid(rid), tasks);
  }

  /** Removing keeps the order of the others: with unique ids, removing the entry at `i` is
      cutting position `i` out of the list; removing an absent id changes nothing. */
  lemma {:induction false} RemoveKeepsOrder<V>(tasks: seq<Fields<V>>, current: Option<Fields<V>>, rid: Option<V>, i: nat)
    requires UniqueRids(tasks) && i < |tasks| && Rid(tasks[i]) == rid
    ensures Removed(tasks, current, rid).0 == tasks[..i] + tasks[i + 1..]
    ensures UniqueRids(Removed(tasks, current, rid).0)
  {
    FilterCut(OtherRid(rid), tasks, i);
    OthersKept(tasks, i);
    CutKeepsUnique(tasks, i);
  }

  /** With unique ids, the entries before and after position `i` all have another id. */
  lemma {:induction false} OthersKept<V>(tasks: seq<Fields<V>>, i: nat)
    requires UniqueRids(tasks) && i < |tasks|
    ensures Filter(OtherRid(Rid(tasks[i])), tasks[..i]) == tasks[..i]
    ensures Filter(OtherRid(Rid(tasks[i])), tasks[i + 1..]) == tasks[i + 1..]
  {
    var p := OtherRid(Rid(tasks[i]));
    var before, after := tasks[..i], tasks[i + 1..];
    forall j | 0 <= j < |before| ensures p(before[j]) {
      assert before[j] == tasks[j];
    }
    FilterAll(p, before);
    forall j | 0 <= j < |after| ensures p(after[j]) {
      assert after[j] == tasks[i + 1 + j];
    }
    FilterAll(p, after);
  }

  lemma {:induction false} CutKeepsUnique<V>(tasks: seq<Fields<V>>, i: nat)
    requires UniqueRids(tasks) && i < |tasks|
    ensures UniqueRids(tasks[..i] + tasks[i + 1..])
  {
    var t' := tasks[..i] + tasks[i + 1..];
    forall a, b | 0 <= a < b < |t'| ensures Rid(t'[a]) != Rid(t'[b]) {
      var a', b' := if a < i then a else a + 1, if b < i then b else b + 1;
      assert t'[a] == tasks[a'] && t'[b] == tasks[b'];
    }
  }

  lemma {:induction false} RemoveAbsent<V>(tasks: seq<Fields<V>>, current: Option<Fields<V>>, rid: Option<V>)
    requires forall i :: 0 <= i < |tasks| ==> Rid(tasks[i]) != rid
    ensures Removed(tasks, current, rid).0 == tasks
  {
    FilterAll(OtherRid(rid), tasks);
  }

  /** The store the components share. */
  class TaskStatusStore<V(==)> {
    var tasks: seq<Fields<V>>
    var currentTask: Option<Fields<V>>

    constructor ()
      ensures tasks == [] && currentTask.None?
    {
      tasks := [];
      currentTask := None;
    }

    /** `this.tasks.findIndex(t => t.requestId === rid)` */
    method FindIndex(rid: Option<V>) returns (idx: int)
      ensures idx == FirstIndex(tasks, HasRid(rid))
    {
      idx := 0;
      while idx < |tasks| && Rid(tasks[idx]) != rid
        invariant 0 <= idx <= |tasks|
        invariant forall j :: 0 <= j < idx ==> !HasRid(rid)(tasks[j])
      {
        idx := idx + 1;
      }
      if idx == |tasks| {
        idx := -1;
      } else {
        assert HasRid(rid)(tasks[idx]);
      }
    }

    /** `addTask(task)` */
    method AddTask(task: Fields<V>)
      modifies this
      ensures (tasks, currentTask) == Added(old(tasks), old(currentTask), task)
    {
      var idx := FindIndex(Rid(task));
      if idx != -1 {
        tasks := tasks[idx := tasks[idx] + task];
      } else {
        tasks := tasks + [task];
      }
      if currentTask.None? || Rid(currentTask.value) == Rid(task) {
        var k := FindIndex(Rid(task));
        currentTask := if k >= 0 then Some(tasks[k]) else None;
      }
    }

    /** `updateTask(rid, update)` */
    method UpdateTask(rid: Option<V>, update: Fields<V>)
      modifies this
      ensures (tasks, currentTask) == Updated(old(tasks), old(currentTask), rid, update)
    {
      var idx := FindIndex(rid);
      if idx != -1 {
        tasks := tasks[idx := tasks[idx] + update];
        if currentTask.Some? && Rid(currentTask.value) == rid {
          currentTask := Some(tasks[idx]);
        }
      }
    }

    /** `setCurrentTask(rid)`: the first task with the id, or none. */
    method SetCurrentTask(rid: Option<V>)
      modifies this
      ensures tasks == old(tasks) && currentTask == Find(tasks, rid)
    {
      var k := FindIndex(rid);
      currentTask := if k >= 0 then Some(tasks[k]) else None;
    }

    /** `removeTask(rid)` */
    method RemoveTask(rid: Option<V>)
      modifies this
      ensures (tasks, currentTask) == Removed(old(tasks), old(currentTask), rid)
    {
      tasks := Filter(OtherRid(rid), tasks);
      if currentTask.Some? && Rid(currentTask.value) == rid {
        currentTask := None;
      }
    }

    /** `clear()` */
    method Clear()
      modifies this
      ensures tasks == [] && currentTask.None?
    {
      tasks := [];
      currentTask := None;
    }
  }
}
