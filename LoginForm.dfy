/**
 * The login form: a nickname is looked up and, when the lookup response is
 * not ok, created; on success both keys are stored and `onLogin` is called.
 * `handleLogin` is split at its two awaited requests into a state machine
 * whose phase says which answer it waits for.
 */
module LoginForm {
  import opened Wrappers
  import Text
  import Config
  import Storage

  const ErrEmptyNickname := "Введите никнейм"
  const ErrCreateFailed := "Не удалось создать пользователя"
  const ErrLoginFailed := "Произошла ошибка при входе в систему"

  /** The user object the server returns (`id`, `nickname`). */
  datatype ServerUser = ServerUser(id: int, nickname: string)

  datatype Phase = Idle | AwaitLookup(nickname: string) | AwaitCreate(nickname: string)

  /** The lookup's outcome: an ok response, a response that is not ok, or a thrown error with its message. */
  datatype LookupOutcome = Found(user: ServerUser) | NotOk | LookupThrew(message: string)

  /** The create call's outcome: an ok response, a response that is not ok with its `detail`, or a thrown error. */
  datatype CreateOutcome = Created(user: ServerUser) | Rejected(detail: string) | CreateThrew(message: string)

  /** `error.message || 'Произошла ошибка при входе в систему'`. */
  function ThrownText(message: string): (r: string)
    ensures r != ""
    ensures message != "" ==> r == message
    ensures message == "" ==> r == ErrLoginFailed
  {
    if message != "" then message else ErrLoginFailed
  }

  /** `errorData.detail || 'Не удалось создать пользователя'`, then re-thrown and shown as is. */
  function RejectionText(detail: string): (r: string)
    ensures r != ""
    ensures detail != "" ==> r == detail
    ensures detail == "" ==> r == ErrCreateFailed
  {
    ThrownText(if detail != "" then detail else ErrCreateFailed)
  }

  class Login {
    const env: Config.Env
    const store: Storage.LocalStore
    var nickname: string
    var error: string
    var isLoading: bool
    var phase: Phase
    var loggedIn: seq<ServerUser>

    /** `isLoading` is set exactly while a request is outstanding. */
    ghost predicate Valid()
      reads this
    {
      isLoading == !phase.Idle?
    }

    constructor (env: Config.Env, store: Storage.LocalStore)
      ensures Valid() && this.env == env && this.store == store
      ensures nickname == "" && error == "" && !isLoading && phase == Idle && loggedIn == []
    {
      this.env := env;
      this.store := store;
      nickname := "";
      error := "";
      isLoading := false;
      phase := Idle;
      loggedIn := [];
    }

    /** `handleLogin` up to its first await: loading, error cleared, lookup of `n` requested. */
    method StartLogin(n: string) returns (request: string)
      requires Valid()
      modifies this`isLoading, this`error, this`phase
      ensures Valid() && isLoading && error == "" && phase == AwaitLookup(n)
      ensures request == Config.UserByNickname(env, n)
    {
      isLoading := true;
      error := "";
      phase := AwaitLookup(n);
      request := Config.UserByNickname(env, n);
    }

    /** The mount effect: a truthy saved nickname is logged in with as stored, untrimmed. */
    method Mount() returns (request: Option<string>)
      requires Valid() && phase == Idle
      modifies this`isLoading, this`error, this`phase
      ensures Valid()
      ensures Storage.Truthy(store.GetItem(Storage.NicknameKey)) ==>
                var saved := store.GetItem(Storage.NicknameKey).value;
                phase == AwaitLookup(saved) && request == Some(Config.UserByNickname(env, saved))
      ensures !Storage.Truthy(store.GetItem(Storage.NicknameKey)) ==>
                request == None && phase == old(phase) && error == old(error)
    {
      var saved := store.GetItem(Storage.NicknameKey);
      if saved.Some? && saved.value != "" {
        var url := StartLogin(saved.value);
        request := Some(url);
      } else {
        request := None;
      }
    }

    /** Typing replaces the nickname and clears the error. */
    method Edit(text: string)
      requires Valid()
      modifies this`nickname, this`error
      ensures Valid() && nickname == text && error == ""
    {
      nickname := text;
      error := "";
    }

    /**
     * Submitting, possible only while not loading (the input and the button
     * are disabled then): a nickname that is blank after trimming sets the
     * error and requests nothing; otherwise the trimmed nickname is looked up.
     */
    method Submit() returns (request: Option<string>)
      requires Valid() && !isLoading
      modifies this`isLoading, this`error, this`phase
      ensures Valid()
      ensures Text.AllSpace(nickname) ==> request == None && error == ErrEmptyNickname && phase == Idle
      ensures !Text.AllSpace(nickname) ==>
                && phase == AwaitLookup(Text.Trim(nickname)) && error == ""
                && request == Some(Config.UserByNickname(env, Text.Trim(nickname)))
    {
      Text.TrimEmptyIff(nickname);
      if Text.Trim(nickname) != "" {
        var url := StartLogin(Text.Trim(nickname));
        request := Some(url);
      } else {
        error := ErrEmptyNickname;
        request := None;
      }
    }

    /** Both keys are written, then `onLogin` is called with the server's user object. */
    method Finish(n: string, u: ServerUser)
      requires Valid()
      modifies this`isLoading, this`phase, this`loggedIn, store
      ensures Valid() && !isLoading && phase == Idle
      ensures store.items == old(store.items)[Storage.NicknameKey := n][Storage.UserIdKey := Text.IntText(u.id)]
      ensures loggedIn == old(loggedIn) + [u]
    {
      store.SetItem(Storage.NicknameKey, n);
      store.SetItem(Storage.UserIdKey, Text.IntText(u.id));
      loggedIn := loggedIn + [u];
      isLoading := false;
      phase := Idle;
    }

    /**
     * The lookup's answer. Found: the user is stored and logged in, and no
     * create is made. Not ok: the create call for the same nickname is made.
     * Thrown: the message (or the default text) is shown and nothing is stored.
     */
    method LookupDone(outcome: LookupOutcome) returns (createBody: Option<(string, string)>)
      requires Valid() && phase.AwaitLookup?
      modifies this`isLoading, this`phase, this`loggedIn, this`error, store
      ensures Valid()
      ensures var n := old(phase).nickname;
              match outcome
              case Found(u) =>
                && createBody == None && !isLoading && error == old(error)
                && store.items == old(store.items)[Storage.NicknameKey := n][Storage.UserIdKey := Text.IntText(u.id)]
                && loggedIn == old(loggedIn) + [u]
              case NotOk =>
                && createBody == Some((Config.UserCreate(env), n)) && phase == AwaitCreate(n)
                && store.items == old(store.items) && loggedIn == old(loggedIn) && error == old(error)
              case LookupThrew(message) =>
                && createBody == None && !isLoading && error == ThrownText(message)
                && store.items == old(store.items) && loggedIn == old(loggedIn)
    {
      var n := phase.nickname;
      createBody := None;
      match outcome
      case Found(u) =>
        Finish(n, u);
      case NotOk =>
        phase := AwaitCreate(n);
        createBody := Some((Config.UserCreate(env), n));
      case LookupThrew(message) =>
        error := ThrownText(message);
        isLoading := false;
        phase := Idle;
    }

    /**
     * The create call's answer. Created: stored and logged in as on a found
     * lookup. Otherwise the server's `detail`, the thrown message or a
     * default text is shown, nothing is stored and `onLogin` is not called.
     */
    method CreateDone(outcome: CreateOutcome)
      requires Valid() && phase.AwaitCreate?
      modifies this`isLoading, this`phase, this`loggedIn, this`error, store
      ensures Valid() && !isLoading && phase == Idle
      ensures var n := old(phase).nickname;
              match outcome
              case Created(u) =>
                && error == old(error) && loggedIn == old(loggedIn) + [u]
                && store.items == old(store.items)[Storage.NicknameKey := n][Storage.UserIdKey := Text.IntText(u.id)]
              case Rejected(detail) =>
                error == RejectionText(detail) && store.items == old(store.items) && loggedIn == old(loggedIn)
              case CreateThrew(message) =>
                error == ThrownText(message) && store.items == old(store.items) && loggedIn == old(loggedIn)
    {
      var n := phase.nickname;
      match outcome
      case Created(u) =>
        Finish(n, u);
      case Rejected(detail) =>
        error := RejectionText(detail);
        isLoading := false;
        phase := Idle;
      case CreateThrew(message) =>
        error := ThrownText(message);
        isLoading := false;
        phase := Idle;
    }
  }
}
