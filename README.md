# Cloud-disk client state, in Dafny

This project models the Redux state of a browser client for a cloud file
store, and the two click handlers that navigate the directory tree:

- the **files slice**. It holds the listing on screen, the directory shown
  (`currentDir`), the stack of directories to go back to
  (`directoryStack`), the request status and error, the layout and the sort
  key. Its six plain reducers and the `pending`, `rejected` and `fulfilled`
  cases of its five async thunks (getFiles, createDir, uploadFile,
  deleteFile, searchFile) are all modelled. So is the percentage formula of
  the upload progress callback.
- the **upload slice**. It holds the visibility of the upload panel and one
  `{id, name, progress}` record per upload.
- the **users slice**. It holds the signed-in user, `isAuth`, the status and
  the error, for logout, register, login, the session check and the two
  avatar requests.
- **`combineUrlParams`**, which builds the query of the listing request.
- **`handleOpen`** (File component) and **`handleBackDir`** (DiskPanel
  component). Together they make the directory stack behave as a
  back-navigation history.

Each slice is a class whose fields are the slice's state, with a
`Snapshot()` function giving that state as one value. Every reducer case
is a method. Its postcondition gives the whole new state as an update of the
old one: `Snapshot() == old(Snapshot()).(files := ..., status := ...)`, so
every field it does not name is unchanged. Network results arrive as method
arguments: the payload of a `fulfilled` action, or a `Rejection` for a
`rejected` one. The same `pending` case and the same `rejected` case serve
several thunks, so each is one method with a parameter that only names which
thunk the call stands for. The handlers are methods over a `FilesStore` and call its reducers in
the source's order. Each is proved against a pure function of the state
(`Opened`, `Backed`). `Navigation` then proves what sequences of actions do,
using the datatype `Action` (the two clicks and every other reducer case of
the files slice), its single step `Step`, which `Navigation.Dispatch` ties to
the store's methods, and the functions `Run`, `OpenAll` and `BackTimes`.

The main results are these:

- Back undoes open. Opening a directory and pressing back restores
  the stack and the directory shown before, after any sequence of clicks
  and other files-slice reducer cases from the initial state
  (`Navigation.OpenThenBackAnywhere`). Actions of the upload and users
  slices do not touch the files slice.
- Opening n directories and pressing back n times returns to the start.
- Pressing back more often than the stack is deep ends at the root and
  stays there.
- The root (`null` or `undefined`) is never pushed. While the root is shown,
  the stack is empty (`FilesSlice.RootHasEmptyStack`), and every sequence of
  actions keeps this.
- Deleting by id is an order-preserving filter. It is idempotent, and it
  undoes appending an entry with a fresh id.
- A progress update changes only the `progress` of the records with its id.
  An update for an id that is gone changes nothing, and the last update for
  a task wins.

Three details of the code that the model keeps:
- Back on an empty stack sets `currentDir` to `undefined` (the root).
  Because of the invariant above, this happens only when the root or a
  directory opened from the root is shown, so going to the root is the
  right answer.
- The progress percentage uses `Math.round`, which rounds halves up.
- Opening a directory from the root pushes nothing.

## Model

| member | source | states |
|---|---|---|
| `Common.ErrorFrom` | src/features/files/filesSlice.ts:207-214 | the error a `rejected` case stores: the payload's message when there is a payload, else `action.error.message`, else `undefined`; never `null` |
| `Common.ElementAt` | src/components/DiskPanel/DiskPanel.tsx:34 | JavaScript array indexing: the element for an index inside the array, `undefined` outside it (so `stack[length-1]` of an empty stack is `undefined`) |
| `Lists.Without` | src/features/files/filesSlice.ts:264 | the filter used to delete by id: nothing kept has the id, every kept element was in the list, every element with another id is kept, an absent id changes nothing, a present one shortens the list |
| `Lists.WithoutAppend` | src/features/files/filesSlice.ts:264 | the filter distributes over concatenation, so kept elements keep their relative order |
| `Lists.WithoutSingleton` | src/features/files/filesSlice.ts:264 | a one-element list keeps its element exactly when the key differs |
| `Lists.WithoutIdempotent` | src/features/files/filesSlice.ts:263-267 | deleting the same id twice equals deleting it once |
| `Lists.WithoutCommutes` | src/features/upload/uploadSlice.ts:29-32 | deleting two ids gives the same list in either order |
| `Lists.AddThenWithout` | src/features/upload/uploadSlice.ts:26-32 | appending an element with a fresh key and deleting that key restores the list |
| `FilesSlice.Pushed` | src/features/files/filesSlice.ts:186-190 | a string payload is appended (length grows by one, old entries kept, the payload on top); `null`/`undefined` leave the stack unchanged |
| `FilesSlice.Popped` | src/features/files/filesSlice.ts:191-193 | a non-empty stack loses exactly its top element; an empty one stays empty |
| `FilesSlice.PopUndoesPush` | src/features/files/filesSlice.ts:186-193 | popping after pushing a string restores the stack |
| `FilesSlice.ProgressPercent` | src/features/files/filesSlice.ts:113 | the result is `100 * loaded / total` rounded half up: `p - 1/2 <= 100 * loaded / total < p + 1/2` |
| `FilesSlice.ProgressBounds` | src/features/files/filesSlice.ts:113 | the percentage lies in 0..100 when `loaded <= total`, is 0 at `loaded == 0` and 100 at `loaded == total` |
| `FilesSlice.ProgressMonotone` | src/features/files/filesSlice.ts:113 | more bytes sent never give a lower percentage |
| `FilesSlice.FilesStore.constructor` | src/features/files/filesSlice.ts:22-30 | the initial state: empty listing, `currentDir` null, status idle, no error, empty stack, list layout, no sort |
| `FilesSlice.FilesStore.SetFiles` | src/features/files/filesSlice.ts:180-182 | only `files` changes, to the payload |
| `FilesSlice.FilesStore.SetCurrentDir` | src/features/files/filesSlice.ts:183-185 | only `currentDir` changes, to the payload |
| `FilesSlice.FilesStore.PushDirectoryToStack` | src/features/files/filesSlice.ts:186-190 | only the stack changes, as `Pushed` says |
| `FilesSlice.FilesStore.PopDirectoryStack` | src/features/files/filesSlice.ts:191-193 | only the stack changes, as `Popped` says |
| `FilesSlice.FilesStore.ChangeListView` | src/features/files/filesSlice.ts:194-196 | only `view` changes; listing, `currentDir` and stack untouched |
| `FilesSlice.FilesStore.SetSort` | src/features/files/filesSlice.ts:197-199 | only `sort` changes; listing, `currentDir` and stack untouched |
| `FilesSlice.FilesStore.ThunkPending` | src/features/files/filesSlice.ts:203-206 | status becomes loading and error null, nothing else changes; the same case at lines 219-222, 235-238, 251-254 and 268-271 |
| `FilesSlice.FilesStore.ThunkRejected` | src/features/files/filesSlice.ts:207-214 | status becomes rejected and error `ErrorFrom(rejection)`, listing untouched; the same case at lines 223-230, 239-246, 255-262 and 272-279 |
| `FilesSlice.FilesStore.GetFilesFulfilled` | src/features/files/filesSlice.ts:215-218 | the listing is replaced by the payload and status becomes received |
| `FilesSlice.FilesStore.CreateDirFulfilled` | src/features/files/filesSlice.ts:231-234 | the payload is appended after the unchanged earlier entries; status received |
| `FilesSlice.FilesStore.UploadFileFulfilled` | src/features/files/filesSlice.ts:247-250 | the payload is appended after the unchanged earlier entries; status received |
| `FilesSlice.FilesStore.DeleteFileFulfilled` | src/features/files/filesSlice.ts:263-267 | the listing becomes `Without(files, id)`: every entry with the id gone, the others kept in order; status received |
| `FilesSlice.FilesStore.SearchFileFulfilled` | src/features/files/filesSlice.ts:280-283 | the listing is replaced by the payload and status becomes received |
| `FilesSlice.DeleteUndoesAppend` | src/features/files/filesSlice.ts:263-267 | deleting the id of an entry just appended with a fresh id gives back the earlier listing |
| `FilesSlice.DeleteIdempotent` | src/features/files/filesSlice.ts:263-267 | a second `deleteFile.fulfilled` for the same id changes nothing more |
| `UploadSlice.ChangeProgress` | src/features/upload/uploadSlice.ts:33-40 | the list keeps its length, order, ids and names; records with the payload's id take its progress, all others stay equal |
| `UploadSlice.ChangeAbsentId` | src/features/upload/uploadSlice.ts:33-40 | an update for an id not in the list leaves the list equal to before |
| `UploadSlice.LastUpdateWins` | src/features/upload/uploadSlice.ts:33-40 | two updates for the same task equal the second one alone |
| `UploadSlice.UpdatesOfDifferentTasksCommute` | src/features/upload/uploadSlice.ts:33-40 | updates of two different uploads give the same list in either order |
| `UploadSlice.ChangeAfterRemove` | src/features/upload/uploadSlice.ts:29-40 | an update arriving after its task was removed changes nothing |
| `UploadSlice.RemoveUndoesAdd` | src/features/upload/uploadSlice.ts:26-32 | removing a task just added with a fresh id gives back the earlier list |
| `UploadSlice.RemoveKeepsOthers` | src/features/upload/uploadSlice.ts:29-32 | removing one id neither drops nor alters any record with another id |
| `UploadSlice.UploadTracker.constructor` | src/features/upload/uploadSlice.ts:11-14 | hidden, no records |
| `UploadSlice.UploadTracker.ShowUploader` | src/features/upload/uploadSlice.ts:20-22 | `isVisible` becomes true, records unchanged |
| `UploadSlice.UploadTracker.HideUploader` | src/features/upload/uploadSlice.ts:23-25 | `isVisible` becomes false, records unchanged |
| `UploadSlice.UploadTracker.AddUploadFile` | src/features/upload/uploadSlice.ts:26-28 | the payload is appended at the end, visibility unchanged |
| `UploadSlice.UploadTracker.RemoveUploadFile` | src/features/upload/uploadSlice.ts:29-32 | the records become `Without(files, id)`, visibility unchanged |
| `UploadSlice.UploadTracker.ChangeUploadFile` | src/features/upload/uploadSlice.ts:33-40 | the records become `ChangeProgress(files, payload)`, visibility unchanged |
| `UsersSlice.AvatarCleared` | src/features/users/usersSlice.ts:206-210 | a user stays a user and no user stays none; a truthy avatar becomes `null`; only the avatar can differ; a user without a truthy avatar is unchanged |
| `UsersSlice.SessionStore.constructor` | src/features/users/usersSlice.ts:16-21 | no user, not authenticated, idle, no error |
| `UsersSlice.SessionStore.Logout` | src/features/users/usersSlice.ts:125-128 | user null and `isAuth` false; status and error unchanged |
| `UsersSlice.SessionStore.AuthPending` | src/features/users/usersSlice.ts:132-135 | status loading, error null, nothing else; the same case at lines 149-152 and 166-169 |
| `UsersSlice.SessionStore.AuthRejected` | src/features/users/usersSlice.ts:136-143 | status rejected, error `ErrorFrom(rejection)`; user and `isAuth` unchanged; the same case at lines 153-160 and 170-177 |
| `UsersSlice.SessionStore.RegisterUserFulfilled` | src/features/users/usersSlice.ts:144-148 | status received, the payload becomes the user, `isAuth` true, error unchanged |
| `UsersSlice.SessionStore.LoginUserFulfilled` | src/features/users/usersSlice.ts:161-165 | status received, `payload.user` becomes the user, `isAuth` true |
| `UsersSlice.SessionStore.AuthCheckFulfilled` | src/features/users/usersSlice.ts:178-182 | status received, `payload.user` becomes the user, `isAuth` true |
| `UsersSlice.SessionStore.AvatarPending` | src/features/users/usersSlice.ts:183-185 | only the error is cleared; status and `isAuth` unchanged; the same case at lines 196-198 |
| `UsersSlice.SessionStore.AvatarRejected` | src/features/users/usersSlice.ts:186-192 | only the error is set; status and `isAuth` unchanged; the same case at lines 199-205 |
| `UsersSlice.SessionStore.AddAvatarFulfilled` | src/features/users/usersSlice.ts:193-195 | only the user changes, to the payload |
| `UsersSlice.SessionStore.DeleteAvatarFulfilled` | src/features/users/usersSlice.ts:206-210 | only the user changes, as `AvatarCleared` says; the server's answer is ignored |
| `UsersSlice.LateAvatarAfterLogout` | src/features/users/usersSlice.ts:193-195 | login, logout, then a late `addAvatar.fulfilled` leaves a user in the store with `isAuth` false |
| `UrlParams.CombineUrlParams` | src/utils/combineUrlParams.ts:6-18 | `parent` present iff `dirId` is a non-empty string, and then equal to it; `sort` present iff `sort` is non-empty, and then equal to it; no other key; `null`, `undefined` and `''` all give exactly the root parameters |
| `FileComponent.Opened` | src/components/File/File.tsx:30-35 | a non-directory changes nothing; a directory becomes `currentDir`; the previous directory, if it is a string, is pushed (stack one longer, old entries kept); from the root the stack is unchanged; no other field changes; the navigation invariant is kept |
| `FileComponent.HandleOpen` | src/components/File/File.tsx:30-35 | dispatching `setCurrentDir(id)` and then pushing the `currentDir` read before yields exactly `Opened` |
| `DiskPanel.Backed` | src/components/DiskPanel/DiskPanel.tsx:32-37 | a non-empty stack shrinks by one and its old top becomes `currentDir`; an empty stack stays empty and `currentDir` becomes `undefined`; no other field changes; the navigation invariant holds afterwards |
| `DiskPanel.HandleBackDir` | src/components/DiskPanel/DiskPanel.tsx:32-37 | popping and then setting `currentDir` from the stack read before the pop yields exactly `Backed` |
| `Navigation.OpenThenBack` | src/components/DiskPanel/DiskPanel.tsx:32-37 | from a state with the navigation invariant, open then back restores the stack and the previous directory (the root as `undefined`) |
| `Navigation.OpenAllThenBackAll` | src/components/File/File.tsx:30-35 | opening n directories and pressing back n times returns to the start |
| `Navigation.BackWalksStack` | src/components/DiskPanel/DiskPanel.tsx:32-37 | k backs on a stack at least k deep show its k-th entry from the top and keep the entries below it |
| `Navigation.BackUnderflowsToRoot` | src/components/DiskPanel/DiskPanel.tsx:32-37 | more backs than stack entries end at the root with an empty stack |
| `Navigation.RunAppend` | src/components/File/File.tsx:30-35 | running two click sequences one after the other equals running their concatenation |
| `Navigation.Dispatch` | src/features/files/filesSlice.ts:180-283 | dispatching an action, through its handler or its reducer case, changes the store exactly as `Step` says |
| `Navigation.RunKeepsInvariant` | src/components/File/File.tsx:30-35 | every sequence of clicks and other files-slice reducer cases keeps the invariant "root shown implies empty stack" |
| `Navigation.RunKeepsOtherFields` | src/components/DiskPanel/DiskPanel.tsx:32-37 | clicks change only `currentDir` and the stack: listing, layout, sort, status and error untouched |
| `Navigation.RunKeepsNavigation` | src/features/files/filesSlice.ts:180-283 | every reducer case other than the navigation ones leaves `currentDir` and the stack untouched |
| `Navigation.OpenThenBackAnywhere` | src/components/File/File.tsx:30-35 | after any history of clicks and other files-slice reducer cases from the initial state, open then back returns to the directory shown before and leaves every other field as it was |

## Left out

- HTTP. The thunks' request code, the token header interceptor, the
  download helper and the check that turns "no response" into a thrown
  error are not modelled. The model keeps only their outcomes: a
  `fulfilled` payload, or a `Rejection` whose `payload` is absent when the
  thunk threw.
- The order in which a thunk dispatches actions. For example, uploadFile
  dispatches `showUploader`, then `addUploadFile`, then `changeUploadFile`
  from the progress callback. The network decides that order, so callers of
  the methods pick it. Ids made by `nanoid` are inputs.
- Races. Requests that are in flight at the same time are modelled only as
  some order of reducer calls. There is no scheduling and no time.
- `FilesSlice.ProgressPercent`: requires `total > 0`. The source reads
  `progressEvent.total!` without a check, so a missing or zero total gives
  NaN or Infinity. Those values are not modelled.
- Floating point. Byte counts are natural numbers and sizes are integers.
- A rejected body that is not an object with a `message` field (for
  example, an empty or plain-text body) is not modelled. `Rejection.payload`
  is either absent or such an object.
- `setFiles` declares an empty-tuple payload type. The model accepts any
  list, as the reducer does at run time.
- Immer drafts. Reducers act on values, so nothing is shared between the
  old and the new state. `deleteAvatar.fulfilled`'s nested write is a copy
  of the user with the avatar cleared.
- The handlers read `currentDir` and `directoryStack` from the store when
  they run. This assumes the component has re-rendered since the last state
  change, so its selector values are current.
- The selectors, the store wiring, the refetch that the Disk component
  triggers when `currentDir` or `sort` changes, token storage in
  `localStorage`, and all React rendering, drag-and-drop, form validation
  and search debouncing.
- `formatBytes` is not part of this model.
