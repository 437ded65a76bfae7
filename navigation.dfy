/** Directory navigation as a stack discipline: what sequences of "open
    directory" and "back" clicks do to `currentDir` and `directoryStack`. */
module Navigation {
  import opened Common
  import opened FilesSlice
  import opened FileComponent
  import opened DiskPanel
  import Lists

  /** The root written the way "back" writes it: `null` and `undefined`
      both become `undefined`, a directory id stays as it is. */
  function AsShownAfterBack(dir: Nullish<string>): Nullish<string> {
    if dir.Val? then dir else Undefined
  }

  /** Opening the directories `ids`, one after the other. */
  function OpenAll(s: FilesState, ids: seq<string>): FilesState
    decreases |ids|
  {
    if ids == [] then s else OpenAll(Opened(s, ids[0], "dir"), ids[1..])
  }

  /** Pressing "back" `k` times. */
  function BackTimes(s: FilesState, k: nat): FilesState {
    if k == 0 then s else Backed(BackTimes(s, k - 1))
  }

  /** Back undoes open: the stack is as before and the directory shown
      before is shown again (the root as `undefined`). */
  lemma OpenThenBack(s: FilesState, id: string)
    requires RootHasEmptyStack(s)
    ensures Backed(Opened(s, id, "dir")) == s.(currentDir := AsShownAfterBack(s.currentDir))
  {
  }

  /** Opening any number of directories and then going back as many times
      returns to where the walk started. */
  lemma {:induction false} OpenAllThenBackAll(s: FilesState, ids: seq<string>)
    requires RootHasEmptyStack(s)
    requires ids != []
    ensures BackTimes(OpenAll(s, ids), |ids|) == s.(currentDir := AsShownAfterBack(s.currentDir))
    decreases |ids|
  {
    var first := Opened(s, ids[0], "dir");
    var rest := ids[1..];
    assert OpenAll(s, ids) == OpenAll(first, rest);
    if rest == [] {
      assert BackTimes(first, 1) == Backed(first);
    } else {
      OpenAllThenBackAll(first, rest);
      assert BackTimes(OpenAll(first, rest), |rest|) == first;
    }
    OpenThenBack(s, ids[0]);
  }

  /** Going back `k` times, with at least `k` directories on the stack,
      shows the `k`-th directory from the top and leaves the ones below it. */
  lemma {:induction false} BackWalksStack(s: FilesState, k: nat)
    requires 1 <= k <= |s.directoryStack|
    ensures BackTimes(s, k).directoryStack == s.directoryStack[..|s.directoryStack| - k]
    ensures BackTimes(s, k).currentDir == Val(s.directoryStack[|s.directoryStack| - k])
  {
    var n := |s.directoryStack|;
    if k == 1 {
      assert BackTimes(s, 1) == Backed(s);
    } else {
      BackWalksStack(s, k - 1);
      var t := BackTimes(s, k - 1);
      assert t.directoryStack == s.directoryStack[..n - (k - 1)];
      assert t.directoryStack[|t.directoryStack| - 1] == s.directoryStack[n - k];
      assert t.directoryStack[..|t.directoryStack| - 1] == s.directoryStack[..n - k];
    }
  }

  /** Going back more times than there are directories on the stack ends at
      the root with an empty stack; further presses stay there. */
  lemma {:induction false} BackUnderflowsToRoot(s: FilesState, k: nat)
    requires k > |s.directoryStack|
    ensures BackTimes(s, k).directoryStack == []
    ensures BackTimes(s, k).currentDir == Undefined
  {
    if k - 1 > |s.directoryStack| {
      BackUnderflowsToRoot(s, k - 1);
    } else if |s.directoryStack| > 0 {
      BackWalksStack(s, k - 1);
    }
  }

  /** One thing that can happen to the `files` slice: a click on a listing
      entry or on the back button, or any other reducer case of the slice,
      each named after the reducer or thunk outcome it stands for. */
  datatype Action =
    | Open(id: string, kind: string)
    | Back
    | ReplaceFiles(entries: seq<FileEntry>)
    | ChangeView(layout: View)
    | ChangeSort(key: string)
    | Request(thunk: FilesThunk)
    | Fail(failed: FilesThunk, rejection: Rejection)
    | Listed(entries: seq<FileEntry>)
    | Created(entry: FileEntry)
    | Uploaded(entry: FileEntry)
    | Deleted(deletedId: string)
    | Found(entries: seq<FileEntry>)

  /** The two navigation clicks; every other action is a plain reducer case. */
  predicate IsClick(a: Action) {
    a.Open? || a.Back?
  }

  /** The state after one action: the handler's function for a click, and
      for every other action the new state its `FilesStore` method states. */
  function Step(s: FilesState, a: Action): FilesState {
    match a
    case Open(id, kind) => Opened(s, id, kind)
    case Back => Backed(s)
    case ReplaceFiles(entries) => s.(files := entries)
    case ChangeView(layout) => s.(view := layout)
    case ChangeSort(key) => s.(sort := key)
    case Request(_) => s.(status := Loading, error := Null)
    case Fail(_, rejection) => s.(status := Rejected, error := ErrorFrom(rejection))
    case Listed(entries) => s.(files := entries, status := Received)
    case Created(entry) => s.(files := s.files + [entry], status := Received)
    case Uploaded(entry) => s.(files := s.files + [entry], status := Received)
    case Deleted(id) => s.(files := Lists.Without(s.files, FileId, id), status := Received)
    case Found(entries) => s.(files := entries, status := Received)
  }

  /** Dispatching `a` to the store, through the handler or the reducer case
      it stands for, has exactly the effect `Step` gives. */
  method Dispatch(store: FilesStore, a: Action)
    modifies store
    ensures store.Snapshot() == Step(old(store.Snapshot()), a)
  {
    match a
    case Open(id, kind) => HandleOpen(store, id, kind);
    case Back => HandleBackDir(store);
    case ReplaceFiles(entries) => store.SetFiles(entries);
    case ChangeView(layout) => store.ChangeListView(layout);
    case ChangeSort(key) => store.SetSort(key);
    case Request(thunk) => store.ThunkPending(thunk);
    case Fail(thunk, rejection) => store.ThunkRejected(thunk, rejection);
    case Listed(entries) => store.GetFilesFulfilled(entries);
    case Created(entry) => store.CreateDirFulfilled(entry);
    case Uploaded(entry) => store.UploadFileFulfilled(entry);
    case Deleted(id) => store.DeleteFileFulfilled(id);
    case Found(entries) => store.SearchFileFulfilled(entries);
  }

  /** The state after the actions `cs`, in order. */
  function Run(s: FilesState, cs: seq<Action>): FilesState
    decreases |cs|
  {
    if cs == [] then s else Run(Step(s, cs[0]), cs[1..])
  }

  lemma {:induction false} RunAppend(s: FilesState, a: seq<Action>, b: seq<Action>)
    ensures Run(s, a + b) == Run(Run(s, a), b)
    decreases |a|
  {
    if a == [] {
      assert a + b == b;
    } else {
      assert (a + b)[1..] == a[1..] + b;
      RunAppend(Step(s, a[0]), a[1..], b);
    }
  }

  /** Every sequence of actions keeps the navigation invariant, so it holds
      in every state reachable from the initial one. */
  lemma {:induction false} RunKeepsInvariant(s: FilesState, cs: seq<Action>)
    requires RootHasEmptyStack(s)
    ensures RootHasEmptyStack(Run(s, cs))
    decreases |cs|
  {
    if cs != [] {
      RunKeepsInvariant(Step(s, cs[0]), cs[1..]);
    }
  }

  /** Clicking around only moves `currentDir` and the stack: the listing,
      the layout, the sort key, the status and the error are left alone. */
  lemma {:induction false} RunKeepsOtherFields(s: FilesState, cs: seq<Action>)
    requires forall i :: 0 <= i < |cs| ==> IsClick(cs[i])
    ensures Run(s, cs).(currentDir := s.currentDir, directoryStack := s.directoryStack) == s
    decreases |cs|
  {
    if cs != [] {
      assert forall i :: 0 <= i < |cs[1..]| ==> cs[1..][i] == cs[i + 1];
      RunKeepsOtherFields(Step(s, cs[0]), cs[1..]);
    }
  }

  /** Conversely, no reducer case other than the two clicks moves
      `currentDir` or the stack. */
  lemma {:induction false} RunKeepsNavigation(s: FilesState, cs: seq<Action>)
    requires forall i :: 0 <= i < |cs| ==> !IsClick(cs[i])
    ensures Run(s, cs).currentDir == s.currentDir
    ensures Run(s, cs).directoryStack == s.directoryStack
    decreases |cs|
  {
    if cs != [] {
      assert forall i :: 0 <= i < |cs[1..]| ==> cs[1..][i] == cs[i + 1];
      RunKeepsNavigation(Step(s, cs[0]), cs[1..]);
    }
  }

  /** After any history of clicks and other reducer cases of the slice,
      started from the initial state, opening a directory and pressing back
      returns to the directory shown before and leaves the rest as it was. */
  lemma OpenThenBackAnywhere(cs: seq<Action>, id: string)
    ensures var before := Run(InitialState, cs);
      Run(InitialState, cs + [Open(id, "dir"), Back]) == before.(currentDir := AsShownAfterBack(before.currentDir))
  {
    var before := Run(InitialState, cs);
    RunAppend(InitialState, cs, [Open(id, "dir"), Back]);
    RunKeepsInvariant(InitialState, cs);
    OpenThenBack(before, id);
    var clicks := [Open(id, "dir"), Back];
    assert clicks[1..] == [Back] && [Back][1..] == [];
    assert Run(before, clicks) == Run(Opened(before, id, "dir"), [Back]);
  }
}
