/** The `DiskPanel` component's back button. */
module DiskPanel {
  import opened Common
  import opened FilesSlice

  /** The state after `handleBackDir()`: the last directory on the stack is
      popped and shown; with nothing on the stack the root (`undefined`) is
      shown. Only the stack and `currentDir` change. */
  function Backed(s: FilesState): (r: FilesState)
    ensures s.directoryStack != [] ==>
      |r.directoryStack| == |s.directoryStack| - 1 &&
      r.directoryStack + [s.directoryStack[|s.directoryStack| - 1]] == s.directoryStack &&
      r.currentDir == Val(s.directoryStack[|s.directoryStack| - 1])
    ensures s.directoryStack == [] ==> r.directoryStack == [] && r.currentDir == Undefined
    ensures r.(currentDir := s.currentDir, directoryStack := s.directoryStack) == s
    ensures RootHasEmptyStack(r)
  {
    s.(directoryStack := Popped(s.directoryStack),
       currentDir := ElementAt(s.directoryStack, |s.directoryStack| - 1))
  }

  /** `handleBackDir`: the stack the component read when it rendered is the
      stack before the pop, so its last element is the directory popped. */
  method HandleBackDir(store: FilesStore)
    modifies store
    ensures store.Snapshot() == Backed(old(store.Snapshot()))
  {
    var directoryStack := store.directoryStack;
    store.PopDirectoryStack();
    var backDirId := ElementAt(directoryStack, |directoryStack| - 1);
    store.SetCurrentDir(backDirId);
  }
}
