/** The `files` slice: the listing of the directory on screen, the directory
    being shown, the stack of directories to go back to, and the status of
    the last request. */
module FilesSlice {
  import opened Common
  import Lists

  /** An entry of the listing (`IFile`): `kind` is the entry's `type`,
      `"dir"` for a directory and anything else for a file. */
  datatype FileEntry = FileEntry(id: string, name: string, kind: string, size: int, date: string)

  /** The key the listing is filtered on when an entry is deleted (`file._id`). */
  function FileId(f: FileEntry): string {
    f.id
  }

  /** The two layouts of the listing. */
  datatype View = List | Plate

  /** The five async thunks of the slice; each has a `pending`, a `rejected`
      and a `fulfilled` case. */
  datatype FilesThunk = GetFiles | CreateDir | UploadFile | DeleteFile | SearchFile

  /** The whole state of the slice as one value. */
  datatype FilesState = FilesState(
    files: seq<FileEntry>,
    currentDir: Nullish<string>,
    status: Status,
    error: Nullish<string>,
    directoryStack: seq<string>,
    view: View,
    sort: string)

  const InitialState := FilesState([], Null, Idle, Null, [], List, "")

  /** `null` and `undefined` both mean the root directory. */
  predicate IsRoot(dir: Nullish<string>) {
    !dir.Val?
  }

  /** The navigation invariant: while the root is shown there is nothing to
      go back to. The navigation reducers are dispatched only by the two
      navigation handlers, which keep it, and every other reducer leaves
      both fields alone. */
  predicate RootHasEmptyStack(s: FilesState) {
    IsRoot(s.currentDir) ==> s.directoryStack == []
  }

  /** The stack after `pushDirectoryToStack(payload)`: only a string is pushed. */
  function Pushed(stack: seq<string>, payload: Nullish<string>): (r: seq<string>)
    ensures payload.Val? ==> |r| == |stack| + 1 && r[..|stack|] == stack && r[|stack|] == payload.value
    ensures !payload.Val? ==> r == stack
  {
    if payload.Val? then stack + [payload.value] else stack
  }

  /** The stack after `popDirectoryStack()`: `Array.prototype.pop` drops the
      last element and does nothing to an empty array. */
  function Popped(stack: seq<string>): (r: seq<string>)
    ensures stack != [] ==> |r| == |stack| - 1 && r + [stack[|stack| - 1]] == stack
    ensures stack == [] ==> r == []
  {
    if stack == [] then [] else stack[..|stack| - 1]
  }

  /** Popping undoes pushing a string. */
  lemma PopUndoesPush(stack: seq<string>, dir: string)
    ensures Popped(Pushed(stack, Val(dir))) == stack
  {
  }

  /** `Math.round((loaded * 100) / total)` on byte counts. JavaScript's
      `Math.round` rounds halves up, so the percentage is the integer `p`
      with `p - 1/2 <= 100 * loaded / total < p + 1/2`, stated here with
      both sides multiplied by `2 * total`. */
  function ProgressPercent(loaded: nat, total: nat): (p: int)
    requires total > 0
    ensures (2 * p - 1) * total <= 200 * loaded < (2 * p + 1) * total
  {
    var num, den := 200 * loaded + total, 2 * total;
    var q, rem := num / den, num % den;
    assert num == q * den + rem && 0 <= rem < den;
    assert (2 * q - 1) * total == q * den - total;
    assert (2 * q + 1) * total == q * den + total;
    q
  }

  /** A progress report is a percentage: between 0 and 100 while no more than
      the whole file has been sent, 0 before the first byte and 100 at the end. */
  lemma ProgressBounds(loaded: nat, total: nat)
    requires total > 0
    ensures loaded <= total ==> 0 <= ProgressPercent(loaded, total) <= 100
    ensures loaded == 0 ==> ProgressPercent(loaded, total) == 0
    ensures loaded == total ==> ProgressPercent(loaded, total) == 100
  {
    var p := ProgressPercent(loaded, total);
    // 0 <= 200 * loaded < (2p + 1) * total, so p >= 0
    TimesPositive(2 * p + 1, total);
    if loaded <= total {
      // (2p - 1) * total <= 200 * loaded <= 200 * total, so 2p - 1 <= 200
      AtMostScaled(2 * p - 1, loaded, total);
    }
    if loaded == total {
      // 200 * total < (2p + 1) * total, so 200 <= 2p
      TimesStrict(200, 2 * p + 1, total);
    }
  }

  lemma AtMostScaled(a: int, loaded: nat, total: nat)
    requires total > 0 && loaded <= total && a * total <= 200 * loaded
    ensures a <= 200
  {
    assert a * total <= 200 * total;
    TimesCancel(a, 200, total);
  }

  /** More bytes sent never lowers the reported percentage. */
  lemma ProgressMonotone(loaded1: nat, loaded2: nat, total: nat)
    requires total > 0 && loaded1 <= loaded2
    ensures ProgressPercent(loaded1, total) <= ProgressPercent(loaded2, total)
  {
    var p1, p2 := ProgressPercent(loaded1, total), ProgressPercent(loaded2, total);
    // (2 * p1 - 1) * total <= 200 * loaded1 <= 200 * loaded2 < (2 * p2 + 1) * total
    TimesCancel(2 * p1 - 1, 2 * p2 + 1, total);
  }

  lemma TimesPositive(a: int, c: nat)
    requires a * c > 0
    ensures a > 0
  {
  }

  lemma TimesStrict(a: int, b: int, c: nat)
    requires c > 0 && a * c < b * c
    ensures a < b
  {
    TimesCancel(a + 1, b, c);
  }

  lemma TimesCancel(a: int, b: int, c: nat)
    requires c > 0 && a * c <= b * c
    ensures a <= b
  {
    assert (b - a + 1) * c == b * c - a * c + c;
    TimesPositive(b - a + 1, c);
  }

  /** The store's `files` slice, updated in place by its reducers. */
  class FilesStore {
    var files: seq<FileEntry>
    var currentDir: Nullish<string>
    var status: Status
    var error: Nullish<string>
    var directoryStack: seq<string>
    var view: View
    var sort: string

    function Snapshot(): FilesState
      reads this
    {
      FilesState(files, currentDir, status, error, directoryStack, view, sort)
    }

    constructor ()
      ensures Snapshot() == InitialState
    {
      files, currentDir, status, error := [], Null, Idle, Null;
      directoryStack, view, sort := [], List, "";
    }

    method SetFiles(payload: seq<FileEntry>)
      modifies this
      ensures Snapshot() == old(Snapshot()).(files := payload)
    {
      files := payload;
    }

    method SetCurrentDir(payload: Nullish<string>)
      modifies this
      ensures Snapshot() == old(Snapshot()).(currentDir := payload)
    {
      currentDir := payload;
    }

    method PushDirectoryToStack(payload: Nullish<string>)
      modifies this
      ensures Snapshot() == old(Snapshot()).(directoryStack := Pushed(old(directoryStack), payload))
    {
      if payload.Val? {
        directoryStack := directoryStack + [payload.value];
      }
    }

    method PopDirectoryStack()
      modifies this
      ensures Snapshot() == old(Snapshot()).(directoryStack := Popped(old(directoryStack)))
    {
      if |directoryStack| > 0 {
        directoryStack := directoryStack[..|directoryStack| - 1];
      }
    }

    method ChangeListView(payload: View)
      modifies this
      ensures Snapshot() == old(Snapshot()).(view := payload)
    {
      view := payload;
    }

    method SetSort(payload: string)
      modifies this
      ensures Snapshot() == old(Snapshot()).(sort := payload)
    {
      sort := payload;
    }

    /** The `pending` case, the same for all five thunks; `thunk` only names
        which of them the call stands for. */
    method ThunkPending(thunk: FilesThunk)
      modifies this
      ensures Snapshot() == old(Snapshot()).(status := Loading, error := Null)
    {
      status := Loading;
      error := Null;
    }

    /** The `rejected` case, the same for all five thunks; `thunk` only names
        which of them the call stands for. */
    method ThunkRejected(thunk: FilesThunk, rejection: Rejection)
      modifies this
      ensures Snapshot() == old(Snapshot()).(status := Rejected, error := ErrorFrom(rejection))
    {
      if rejection.payload.Some? {
        error := Val(rejection.payload.value.message);
      } else {
        error := if rejection.errorMessage.Some? then Val(rejection.errorMessage.value) else Undefined;
      }
      status := Rejected;
    }

    method GetFilesFulfilled(payload: seq<FileEntry>)
      modifies this
      ensures Snapshot() == old(Snapshot()).(files := payload, status := Received)
    {
      files := payload;
      status := Received;
    }

    method CreateDirFulfilled(payload: FileEntry)
      modifies this
      ensures Snapshot() == old(Snapshot()).(files := old(files) + [payload], status := Received)
    {
      files := files + [payload];
      status := Received;
    }

    method UploadFileFulfilled(payload: FileEntry)
      modifies this
      ensures Snapshot() == old(Snapshot()).(files := old(files) + [payload], status := Received)
    {
      files := files + [payload];
      status := Received;
    }

    /** `payload` is the id of the deleted entry. */
    method DeleteFileFulfilled(payload: string)
      modifies this
      ensures Snapshot() == old(Snapshot()).(files := Lists.Without(old(files), FileId, payload), status := Received)
    {
      files := Lists.Without(files, FileId, payload);
      status := Received;
    }

    method SearchFileFulfilled(payload: seq<FileEntry>)
      modifies this
      ensures Snapshot() == old(Snapshot()).(files := payload, status := Received)
    {
      files := payload;
      status := Received;
    }
  }

  /** Deleting an entry that was just created (or uploaded) with a fresh id
      gives back the listing as it was before. */
  lemma DeleteUndoesAppend(files: seq<FileEntry>, entry: FileEntry)
    requires forall i :: 0 <= i < |files| ==> files[i].id != entry.id
    ensures Lists.Without(files + [entry], FileId, entry.id) == files
  {
    Lists.AddThenWithout(files, entry, FileId);
  }

  /** A second `deleteFile.fulfilled` for the same id changes nothing more. */
  lemma DeleteIdempotent(files: seq<FileEntry>, id: string)
    ensures Lists.Without(Lists.Without(files, FileId, id), FileId, id) == Lists.Without(files, FileId, id)
  {
  }
}
