/**
 * The user management page (app/users/page.tsx): the roster the page holds,
 * the two list transforms its handlers apply, and the handlers themselves as
 * atomic steps over the page state, with each request's outcome as input.
 */
module UsersPage {
  import opened RotationTypes
  import opened Shared

  const FetchFailedPrefix: string := "ユーザーデータの取得に失敗しました: "
  const AddFailedPrefix: string := "ユーザーの追加に失敗しました: "
  const DeleteFailedPrefix: string := "ユーザーの削除に失敗しました: "
  const UpdateFailedPrefix: string := "ユーザーのステータス更新に失敗しました: "

  const AddedMessage: string := "ユーザーを追加しました"
  const DeletedMessage: string := "ユーザーを削除しました"
  const UpdatedMessage: string := "ユーザーのステータスを更新しました"

  /** The body of the create request. */
  datatype NewUser = NewUser(name: string, email: string, active: bool)

  /** What the content view shows: the two inputs, the roster rows in order, and the snackbar. */
  datatype RosterView = RosterView(name: string, email: string, rows: seq<User>, snackbar: Snackbar)

  // ---------------------------------------------------------------------------
  // List transforms

  /** The roster without any entry whose id is `id`, the others in their original order. */
  function WithoutId(users: seq<User>, id: int): (r: seq<User>)
    ensures |r| <= |users|
    ensures forall k | 0 <= k < |r| :: r[k].id != id
  {
    if users == [] then []
    else (if users[0].id == id then [] else [users[0]]) + WithoutId(users[1..], id)
  }

  /** Deleting keeps every entry with another id exactly as often as it was there, and none with `id`. */
  lemma {:induction false} WithoutIdCounts(users: seq<User>, id: int, u: User)
    ensures multiset(WithoutId(users, id))[u] == if u.id == id then 0 else multiset(users)[u]
  {
    if users != [] {
      WithoutIdCounts(users[1..], id, u);
      assert users == [users[0]] + users[1..];
    }
  }

  /** Deleting works piece by piece, so the kept entries stay in their original relative order. */
  lemma {:induction false} WithoutIdAppend(xs: seq<User>, ys: seq<User>, id: int)
    ensures WithoutId(xs + ys, id) == WithoutId(xs, id) + WithoutId(ys, id)
  {
    if xs == [] {
      assert xs + ys == ys;
    } else {
      var head := if xs[0].id == id then [] else [xs[0]];
      WithoutIdAppend(xs[1..], ys, id);
      assert (xs + ys)[0] == xs[0];
      assert (xs + ys)[1..] == xs[1..] + ys;
      calc {
        WithoutId(xs + ys, id);
        head + WithoutId(xs[1..] + ys, id);
        head + (WithoutId(xs[1..], id) + WithoutId(ys, id));
        (head + WithoutId(xs[1..], id)) + WithoutId(ys, id);
      }
    }
  }

  /** A roster with no entry for `id` is left exactly as it was. */
  lemma {:induction false} WithoutIdAbsent(users: seq<User>, id: int)
    requires forall u | u in users :: u.id != id
    ensures WithoutId(users, id) == users
  {
    if users != [] {
      WithoutIdAbsent(users[1..], id);
      assert users == [users[0]] + users[1..];
    }
  }

  /** Deleting the same id twice is the same as deleting it once. */
  lemma WithoutIdIdempotent(users: seq<User>, id: int)
    ensures WithoutId(WithoutId(users, id), id) == WithoutId(users, id)
  {
    WithoutIdAbsent(WithoutId(users, id), id);
  }

  /** The roster with the active flag of every entry whose id is `id` set to `value`. */
  function WithActive(users: seq<User>, id: int, value: bool): (r: seq<User>)
    ensures |r| == |users|
  {
    if users == [] then []
    else [if users[0].id == id then users[0].(active := value) else users[0]] + WithActive(users[1..], id, value)
  }

  /**
   * Entry k of the patched roster: it keeps its id, name and email; its
   * active flag is `value` when the id matches and unchanged otherwise.
   */
  lemma {:induction false} WithActiveAt(users: seq<User>, id: int, value: bool, k: int)
    requires 0 <= k < |users|
    ensures WithActive(users, id, value)[k].id == users[k].id
    ensures WithActive(users, id, value)[k].name == users[k].name
    ensures WithActive(users, id, value)[k].email == users[k].email
    ensures WithActive(users, id, value)[k].active == if users[k].id == id then value else users[k].active
    ensures users[k].id != id ==> WithActive(users, id, value)[k] == users[k]
  {
    if k > 0 {
      WithActiveAt(users[1..], id, value, k - 1);
    }
  }

  /**
   * When every entry for `id` holds the flag `active` (as the switch that
   * passes `user.active` ensures for a single entry), patching with
   * `!active` flips exactly those entries.
   */
  lemma FlipsStoredFlag(users: seq<User>, id: int, active: bool, k: int)
    requires forall j | 0 <= j < |users| && users[j].id == id :: users[j].active == active
    requires 0 <= k < |users|
    ensures WithActive(users, id, !active)[k].active == if users[k].id == id then !users[k].active else users[k].active
  {
    WithActiveAt(users, id, !active, k);
  }

  /** The new flag is the negation of the argument, not of the stored value: a repeated patch changes nothing more. */
  lemma {:induction false} WithActiveIdempotent(users: seq<User>, id: int, value: bool)
    ensures WithActive(WithActive(users, id, value), id, value) == WithActive(users, id, value)
  {
    if users != [] {
      WithActiveIdempotent(users[1..], id, value);
    }
  }

  /** Patching an entry and then deleting it is the same as deleting it. */
  lemma {:induction false} DeleteAfterPatch(users: seq<User>, id: int, value: bool)
    ensures WithoutId(WithActive(users, id, value), id) == WithoutId(users, id)
  {
    if users != [] {
      DeleteAfterPatch(users[1..], id, value);
    }
  }

  // ---------------------------------------------------------------------------
  // The page state and its handlers

  class UserRoster {
    var name: string
    var email: string
    var userList: seq<User>
    var loading: bool
    var error: Option<string>
    var snackbar: Snackbar

    /** The state the page mounts with: empty inputs and roster, loading. */
    constructor ()
      ensures name == "" && email == "" && userList == []
      ensures loading && error == None && snackbar == ClosedSnackbar
    {
      name, email, userList := "", "", [];
      loading, error, snackbar := true, None, ClosedSnackbar;
    }

    /**
     * The render choice: spinner while loading, else the error text when
     * there is one, else the form, the roster and the snackbar. The
     * snackbar belongs to the content, so the error screen never shows it.
     */
    function View(): (s: Screen<RosterView>)
      reads this
      ensures s.Spinner? <==> loading
      ensures s.ErrorText? <==> !loading && Truthy(error)
      ensures s.ErrorText? ==> error == Some(s.message)
      ensures s.Content? <==> !loading && !Truthy(error)
      ensures s.Content? ==> s.content == RosterView(name, email, userList, snackbar)
    {
      Choose(loading, error, RosterView(name, email, userList, snackbar))
    }

    /** Typing into the name field. */
    method EditName(s: string)
      modifies this`name
      ensures name == s
    {
      name := s;
    }

    /** Typing into the email field. */
    method EditEmail(s: string)
      modifies this`email
      ensures email == s
    {
      email := s;
    }

    /**
     * `fetchUsers`: a successful read replaces the roster and clears the
     * error; a failed one records the error and keeps the roster; loading
     * ends either way.
     */
    method FetchUsers(response: Response<seq<User>>)
      modifies this
      ensures !loading
      ensures response.Ok? ==> userList == response.payload && error == None
      ensures !response.Ok? ==> userList == old(userList) && error == Some(FailureMessage(response, FetchFailedPrefix))
      ensures name == old(name) && email == old(email) && snackbar == old(snackbar)
    {
      loading := true;
      match response {
        case Ok(users) =>
          userList := users;
          error := None;
        case _ =>
          error := Some(ErrorMessage(Raised(response, FetchFailedPrefix)));
      }
      loading := false;
    }

    /**
     * `addUser`: nothing happens, and no request is made, unless both inputs
     * are non-empty. A successful create appends the returned user, clears
     * the inputs and announces it; a failed one records the error and keeps
     * the inputs for another attempt. The loading flag is never touched.
     */
    method AddUser(response: Response<User>) returns (request: Option<NewUser>)
      modifies this
      ensures request.Some? <==> old(name) != "" && old(email) != ""
      ensures request.Some? ==> request.value == NewUser(old(name), old(email), true)
      ensures request.None? ==>
        name == old(name) && email == old(email) && userList == old(userList) &&
        error == old(error) && snackbar == old(snackbar)
      ensures request.Some? && response.Ok? ==>
        userList == old(userList) + [response.payload] && name == "" && email == "" &&
        error == old(error) && snackbar == Snackbar(true, AddedMessage)
      ensures request.Some? && !response.Ok? ==>
        userList == old(userList) && name == old(name) && email == old(email) &&
        error == Some(FailureMessage(response, AddFailedPrefix)) && snackbar == old(snackbar)
      ensures loading == old(loading)
    {
      request := None;
      if name != "" && email != "" {
        request := Some(NewUser(name, email, true));
        match response {
          case Ok(newUser) =>
            userList := userList + [newUser];
            name := "";
            email := "";
            snackbar := Snackbar(true, AddedMessage);
          case _ =>
            error := Some(ErrorMessage(Raised(response, AddFailedPrefix)));
        }
      }
    }

    /**
     * `deleteUser`: a successful delete drops every entry with that id and
     * announces it; a failed one records the error and keeps the roster.
     */
    method DeleteUser(id: int, response: Response<()>)
      modifies this
      ensures response.Ok? ==>
        userList == WithoutId(old(userList), id) && error == old(error) && snackbar == Snackbar(true, DeletedMessage)
      ensures !response.Ok? ==>
        userList == old(userList) && error == Some(FailureMessage(response, DeleteFailedPrefix)) && snackbar == old(snackbar)
      ensures response.Ok? ==> forall u | u in userList :: u.id != id
      ensures name == old(name) && email == old(email) && loading == old(loading)
    {
      match response {
        case Ok(_) =>
          userList := WithoutId(userList, id);
          snackbar := Snackbar(true, DeletedMessage);
        case _ =>
          error := Some(ErrorMessage(Raised(response, DeleteFailedPrefix)));
      }
    }

    /**
     * `toggleActive(id, active)`: the update request carries `!active`; a
     * successful one sets that flag on every entry with the id and
     * announces it; a failed one records the error and keeps the roster.
     */
    method ToggleActive(id: int, active: bool, response: Response<()>) returns (requested: bool)
      modifies this
      ensures requested == !active
      ensures response.Ok? ==>
        userList == WithActive(old(userList), id, !active) && error == old(error) &&
        snackbar == Snackbar(true, UpdatedMessage)
      ensures !response.Ok? ==>
        userList == old(userList) && error == Some(FailureMessage(response, UpdateFailedPrefix)) && snackbar == old(snackbar)
      ensures |userList| == |old(userList)|
      ensures name == old(name) && email == old(email) && loading == old(loading)
    {
      requested := !active;
      match response {
        case Ok(_) =>
          userList := WithActive(userList, id, requested);
          snackbar := Snackbar(true, UpdatedMessage);
        case _ =>
          error := Some(ErrorMessage(Raised(response, UpdateFailedPrefix)));
      }
    }
  }
}
