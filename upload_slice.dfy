/** The `upload` slice: whether the upload panel is shown, and one progress
    record per upload the user has started and not yet dismissed. */
module UploadSlice {
  import Lists

  /** One tracked upload (`IUploadFile`): a client-made id, the local file
      name and the last reported percentage. */
  datatype UploadTask = UploadTask(id: string, name: string, progress: int)

  /** The key records are removed and updated by. */
  function TaskId(t: UploadTask): string {
    t.id
  }

  /** The list after `changeUploadFile(update)`: `map` copies every record
      and takes the new progress only for the records whose id is the
      update's. */
  function ChangeProgress(tasks: seq<UploadTask>, update: UploadTask): (r: seq<UploadTask>)
    ensures |r| == |tasks|
    ensures forall i :: 0 <= i < |tasks| ==> r[i].id == tasks[i].id && r[i].name == tasks[i].name
    ensures forall i :: 0 <= i < |tasks| && tasks[i].id == update.id ==> r[i].progress == update.progress
    ensures forall i :: 0 <= i < |tasks| && tasks[i].id != update.id ==> r[i] == tasks[i]
    decreases |tasks|
  {
    if tasks == [] then []
    else
      var head := if tasks[0].id == update.id then tasks[0].(progress := update.progress) else tasks[0];
      [head] + ChangeProgress(tasks[1..], update)
  }

  /** An update for an id that is not in the list (a task the user has
      already removed, say) leaves the list as it is. */
  lemma ChangeAbsentId(tasks: seq<UploadTask>, update: UploadTask)
    requires forall i :: 0 <= i < |tasks| ==> tasks[i].id != update.id
    ensures ChangeProgress(tasks, update) == tasks
  {
  }

  /** Progress reports for the same task overwrite each other: only the last
      one counts. */
  lemma LastUpdateWins(tasks: seq<UploadTask>, first: UploadTask, second: UploadTask)
    requires first.id == second.id
    ensures ChangeProgress(ChangeProgress(tasks, first), second) == ChangeProgress(tasks, second)
  {
  }

  /** Progress reports of two different uploads do not interfere: applying
      them in either order gives the same list. */
  lemma UpdatesOfDifferentTasksCommute(tasks: seq<UploadTask>, u: UploadTask, v: UploadTask)
    requires u.id != v.id
    ensures ChangeProgress(ChangeProgress(tasks, u), v) == ChangeProgress(ChangeProgress(tasks, v), u)
  {
  }

  /** A progress report that arrives after its task was removed changes
      nothing. */
  lemma ChangeAfterRemove(tasks: seq<UploadTask>, update: UploadTask)
    ensures ChangeProgress(Lists.Without(tasks, TaskId, update.id), update) == Lists.Without(tasks, TaskId, update.id)
  {
  }

  /** Removing a task just added with a fresh id gives back the list as it was. */
  lemma RemoveUndoesAdd(tasks: seq<UploadTask>, task: UploadTask)
    requires forall i :: 0 <= i < |tasks| ==> tasks[i].id != task.id
    ensures Lists.Without(tasks + [task], TaskId, task.id) == tasks
  {
    Lists.AddThenWithout(tasks, task, TaskId);
  }

  /** Removing one task keeps every other task's record, unchanged; and the
      records that remain were all in the list before. */
  lemma RemoveKeepsOthers(tasks: seq<UploadTask>, id: string, other: UploadTask)
    requires other.id != id
    ensures other in Lists.Without(tasks, TaskId, id) <==> other in tasks
  {
  }

  /** The whole state of the slice as one value. */
  datatype UploadState = UploadState(isVisible: bool, files: seq<UploadTask>)

  const InitialState := UploadState(false, [])

  /** The store's `upload` slice. */
  class UploadTracker {
    var isVisible: bool
    var files: seq<UploadTask>

    function Snapshot(): UploadState
      reads this
    {
      UploadState(isVisible, files)
    }

    constructor ()
      ensures Snapshot() == InitialState
    {
      isVisible, files := false, [];
    }

    method ShowUploader()
      modifies this
      ensures Snapshot() == old(Snapshot()).(isVisible := true)
    {
      isVisible := true;
    }

    method HideUploader()
      modifies this
      ensures Snapshot() == old(Snapshot()).(isVisible := false)
    {
      isVisible := false;
    }

    method AddUploadFile(payload: UploadTask)
      modifies this
      ensures Snapshot() == old(Snapshot()).(files := old(files) + [payload])
    {
      files := files + [payload];
    }

    /** `payload` is the id of the task to drop. */
    method RemoveUploadFile(payload: string)
      modifies this
      ensures Snapshot() == old(Snapshot()).(files := Lists.Without(old(files), TaskId, payload))
    {
      files := Lists.Without(files, TaskId, payload);
    }

    method ChangeUploadFile(payload: UploadTask)
      modifies this
      ensures Snapshot() == old(Snapshot()).(files := ChangeProgress(old(files), payload))
    {
      files := ChangeProgress(files, payload);
    }
  }
}
