/** The `File` component's click handler: clicking a directory entry opens it. */
module FileComponent {
  import opened Common
  import opened FilesSlice

  /** The state after `handleOpen(id, type)`: for a directory, `currentDir`
      becomes the entry's id and the directory shown before it is pushed on
      the stack; a root (`null` or `undefined`) is never pushed. Anything
      that is not a directory changes nothing. */
  function Opened(s: FilesState, id: string, kind: string): (r: FilesState)
    ensures kind != "dir" ==> r == s
    ensures kind == "dir" ==> r.currentDir == Val(id)
    ensures kind == "dir" && s.currentDir.Val? ==>
      |r.directoryStack| == |s.directoryStack| + 1 &&
      r.directoryStack[..|s.directoryStack|] == s.directoryStack &&
      r.directoryStack[|s.directoryStack|] == s.currentDir.value
    ensures kind == "dir" && IsRoot(s.currentDir) ==> r.directoryStack == s.directoryStack
    ensures r.(currentDir := s.currentDir, directoryStack := s.directoryStack) == s
    ensures RootHasEmptyStack(s) ==> RootHasEmptyStack(r)
  {
    if kind == "dir" then s.(currentDir := Val(id), directoryStack := Pushed(s.directoryStack, s.currentDir)) else s
  }

  /** `handleOpen`: `currentDir` is what the component read from the store
      when it rendered, so the value pushed is the directory shown before the
      click, not the one being opened. */
  method HandleOpen(store: FilesStore, id: string, kind: string)
    modifies store
    ensures store.Snapshot() == Opened(old(store.Snapshot()), id, kind)
  {
    var currentDir := store.currentDir;
    if kind == "dir" {
      store.SetCurrentDir(Val(id));
      store.PushDirectoryToStack(currentDir);
    }
  }
}
