/**
 * The app shell: the signed-in user, restored from `localStorage` on load,
 * set by the login form and cleared on logout, and the screen it selects.
 */
module Session {
  import opened Wrappers
  import opened Records
  import Text
  import Storage
  import LoginForm
  import Config

  datatype SessionUser = SessionUser(id: IdProp, nickname: string)

  /** What the shell renders; the chat screen gets the id and nickname and no `onNewMessage`. */
  datatype Screen = LoginScreen | ChatScreen(userId: IdProp, nickname: string)

  class App {
    const store: Storage.LocalStore
    var user: Option<SessionUser>

    constructor (store: Storage.LocalStore)
      ensures this.store == store && user == None
    {
      this.store := store;
      user := None;
    }

    function CurrentScreen(): Screen
      reads this
    {
      match user
      case None => LoginScreen
      case Some(u) => ChatScreen(u.id, u.nickname)
    }

    /**
     * The restore effect: only when both keys hold truthy values does a user
     * appear, and its id is the stored text, not a number.
     */
    method Restore()
      modifies this`user
      ensures var savedId := store.GetItem(Storage.UserIdKey);
              var savedNick := store.GetItem(Storage.NicknameKey);
              && (Storage.Truthy(savedId) && Storage.Truthy(savedNick) ==>
                    user == Some(SessionUser(Str(savedId.value), savedNick.value)))
              && (!(Storage.Truthy(savedId) && Storage.Truthy(savedNick)) ==> user == old(user))
    {
      var savedId := store.GetItem(Storage.UserIdKey);
      var savedNick := store.GetItem(Storage.NicknameKey);
      if savedId.Some? && savedId.value != "" && savedNick.Some? && savedNick.value != "" {
        user := Some(SessionUser(Str(savedId.value), savedNick.value));
      }
    }

    /** `onLogin`: the user becomes the server's object, with its numeric id. */
    method HandleLogin(data: LoginForm.ServerUser)
      modifies this`user
      ensures user == Some(SessionUser(Num(data.id), data.nickname))
      ensures CurrentScreen() == ChatScreen(Num(data.id), data.nickname)
    {
      user := Some(SessionUser(Num(data.id), data.nickname));
    }

    /** Logout removes both keys, keeps every other key, and returns to the login screen. */
    method Logout()
      modifies this`user, store
      ensures user == None && CurrentScreen() == LoginScreen
      ensures store.items == old(store.items) - {Storage.UserIdKey, Storage.NicknameKey}
    {
      store.RemoveItem(Storage.UserIdKey);
      store.RemoveItem(Storage.NicknameKey);
      user := None;
    }
  }

  /**
   * A login followed by a reload: the restored user carries the same id in
   * text form. It parses back to the number but is never `===` to it.
   */
  method ReloadAfterLogin(u: LoginForm.ServerUser) returns (app: App)
    requires u.nickname != ""
    ensures app.user == Some(SessionUser(Str(Text.IntText(u.id)), u.nickname))
    ensures ParsedId(app.user.value.id) == Some(u.id) && !StrictEquals(u.id, app.user.value.id)
  {
    var store := new Storage.LocalStore(map[]);
    store.SetItem(Storage.NicknameKey, u.nickname);
    store.SetItem(Storage.UserIdKey, Text.IntText(u.id));
    assert Text.IntText(u.id) != "";
    app := new App(store);
    app.Restore();
    RestoredIdAgrees(u.id);
  }

  /**
   * A reload with both keys saved, played in the order React runs it: the
   * login form's mount effect asks the server for the saved nickname, the
   * shell's restore effect then shows the chat with the stored text id, and
   * when the lookup answers, `onLogin` replaces that user by the server's
   * object. The text id is transient; the id the shell settles on is the number.
   */
  method ReloadSettlesOnServerUser(env: Config.Env, u: LoginForm.ServerUser) returns (restored: SessionUser, app: App)
    requires u.nickname != ""
    ensures restored == SessionUser(Str(Text.IntText(u.id)), u.nickname)
    ensures app.user == Some(SessionUser(Num(u.id), u.nickname))
    ensures StrictEquals(u.id, app.user.value.id) && !StrictEquals(u.id, restored.id)
  {
    var store := new Storage.LocalStore(map[]);
    store.SetItem(Storage.NicknameKey, u.nickname);
    store.SetItem(Storage.UserIdKey, Text.IntText(u.id));
    assert Text.IntText(u.id) != "";
    var login := new LoginForm.Login(env, store);
    var request := login.Mount();
    app := new App(store);
    app.Restore();
    restored := app.user.value;
    var createBody := login.LookupDone(LoginForm.Found(u));
    app.HandleLogin(login.loggedIn[|login.loggedIn| - 1]);
  }

  /** Logging out and reloading shows the login screen again. */
  method ReloadAfterLogout(store: Storage.LocalStore, app: App) returns (reloaded: App)
    requires app.store == store
    modifies app, store
    ensures reloaded.CurrentScreen() == LoginScreen
  {
    app.Logout();
    reloaded := new App(store);
    reloaded.Restore();
  }
}
