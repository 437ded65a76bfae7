/** The `users` slice: the signed-in user, whether the session is
    authenticated, and the status and error of the last auth request. */
module UsersSlice {
  import opened Common

  /** `IUser`. `files` is declared as an empty tuple and never read here;
      `avatar` is an optional `null | string`. */
  datatype User = User(
    email: string,
    diskSpace: int,
    userSpace: int,
    files: seq<string>,
    id: string,
    avatar: Nullish<string>)

  /** `TokenUser`, what login and the session check return. */
  datatype TokenUser = TokenUser(user: User, token: string)

  /** The three thunks that establish a session. */
  datatype AuthThunk = RegisterUser | LoginUser | AuthCheck

  /** The two thunks that change the avatar. */
  datatype AvatarThunk = AddAvatar | DeleteAvatar

  /** The whole state of the slice as one value; `currentUser` is `null` when `None`. */
  datatype UsersState = UsersState(currentUser: Option<User>, isAuth: bool, status: Status, error: Nullish<string>)

  const InitialState := UsersState(None, false, Idle, Null)

  /** An authenticated session always has a user. (The converse fails: an
      avatar upload that completes after logout brings the user back while
      `isAuth` stays false.) */
  predicate AuthHasUser(s: UsersState) {
    s.isAuth ==> s.currentUser.Some?
  }

  /** The user after `deleteAvatar.fulfilled`: the avatar is set to `null`
      when there is a user with a truthy avatar, and nothing changes otherwise. */
  function AvatarCleared(user: Option<User>): (r: Option<User>)
    ensures r.Some? <==> user.Some?
    ensures user.Some? && Truthy(user.value.avatar) ==> r.value.avatar == Null
    ensures r.Some? ==> r.value.(avatar := user.value.avatar) == user.value
    ensures user.Some? && !Truthy(user.value.avatar) ==> r == user
  {
    if user.Some? && Truthy(user.value.avatar) then Some(user.value.(avatar := Null)) else user
  }

  /** The store's `users` slice. */
  class SessionStore {
    var currentUser: Option<User>
    var isAuth: bool
    var status: Status
    var error: Nullish<string>

    function Snapshot(): UsersState
      reads this
    {
      UsersState(currentUser, isAuth, status, error)
    }

    ghost predicate Valid()
      reads this
    {
      AuthHasUser(Snapshot())
    }

    constructor ()
      ensures Valid() && Snapshot() == InitialState
    {
      currentUser, isAuth, status, error := None, false, Idle, Null;
    }

    method Logout()
      requires Valid()
      modifies this
      ensures Valid() && Snapshot() == old(Snapshot()).(currentUser := None, isAuth := false)
    {
      currentUser := None;
      isAuth := false;
    }

    /** The `pending` case of register, login and the session check;
        `thunk` only names which of the three the call stands for. */
    method AuthPending(thunk: AuthThunk)
      requires Valid()
      modifies this
      ensures Valid() && Snapshot() == old(Snapshot()).(status := Loading, error := Null)
    {
      status := Loading;
      error := Null;
    }

    /** The `rejected` case of register, login and the session check: the
        user and `isAuth` are kept; `thunk` only names which of the three
        the call stands for. */
    method AuthRejected(thunk: AuthThunk, rejection: Rejection)
      requires Valid()
      modifies this
      ensures Valid() && Snapshot() == old(Snapshot()).(status := Rejected, error := ErrorFrom(rejection))
    {
      if rejection.payload.Some? {
        error := Val(rejection.payload.value.message);
      } else {
        error := if rejection.errorMessage.Some? then Val(rejection.errorMessage.value) else Undefined;
      }
      status := Rejected;
    }

    method RegisterUserFulfilled(payload: User)
      requires Valid()
      modifies this
      ensures Valid() && Snapshot() == old(Snapshot()).(status := Received, currentUser := Some(payload), isAuth := true)
    {
      status := Received;
      currentUser := Some(payload);
      isAuth := true;
    }

    method LoginUserFulfilled(payload: TokenUser)
      requires Valid()
      modifies this
      ensures Valid() && Snapshot() == old(Snapshot()).(status := Received, currentUser := Some(payload.user), isAuth := true)
    {
      status := Received;
      currentUser := Some(payload.user);
      isAuth := true;
    }

    method AuthCheckFulfilled(payload: TokenUser)
      requires Valid()
      modifies this
      ensures Valid() && Snapshot() == old(Snapshot()).(status := Received, currentUser := Some(payload.user), isAuth := true)
    {
      status := Received;
      currentUser := Some(payload.user);
      isAuth := true;
    }

    /** The `pending` case of both avatar thunks: only `error` is cleared;
        `thunk` only names which of the two the call stands for. */
    method AvatarPending(thunk: AvatarThunk)
      requires Valid()
      modifies this
      ensures Valid() && Snapshot() == old(Snapshot()).(error := Null)
    {
      error := Null;
    }

    /** The `rejected` case of both avatar thunks: only `error` is set;
        `status` is not touched; `thunk` only names which of the two the
        call stands for. */
    method AvatarRejected(thunk: AvatarThunk, rejection: Rejection)
      requires Valid()
      modifies this
      ensures Valid() && Snapshot() == old(Snapshot()).(error := ErrorFrom(rejection))
    {
      if rejection.payload.Some? {
        error := Val(rejection.payload.value.message);
      } else {
        error := if rejection.errorMessage.Some? then Val(rejection.errorMessage.value) else Undefined;
      }
    }

    method AddAvatarFulfilled(payload: User)
      requires Valid()
      modifies this
      ensures Valid() && Snapshot() == old(Snapshot()).(currentUser := Some(payload))
    {
      currentUser := Some(payload);
    }

    /** The server's answer is ignored; the avatar is cleared locally. */
    method DeleteAvatarFulfilled(payload: User)
      requires Valid()
      modifies this
      ensures Valid() && Snapshot() == old(Snapshot()).(currentUser := AvatarCleared(old(currentUser)))
    {
      if currentUser.Some? && Truthy(currentUser.value.avatar) {
        currentUser := Some(currentUser.value.(avatar := Null));
      }
    }
  }

  /** An avatar upload that completes after the user logged out puts the
      user back into `currentUser` while `isAuth` stays false. */
  method LateAvatarAfterLogout(session: TokenUser, uploaded: User) returns (store: SessionStore)
    ensures store.Valid()
    ensures store.currentUser == Some(uploaded) && !store.isAuth
  {
    store := new SessionStore();
    store.LoginUserFulfilled(session);
    store.Logout();
    store.AddAvatarFulfilled(uploaded);
  }
}
