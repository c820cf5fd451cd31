/**
 * The client's endpoint table: two base URLs taken from the build
 * environment, and the REST and WebSocket URLs built from them by plain
 * concatenation.
 */
module Config {
  import opened Wrappers

  /** The build-time variables `REACT_APP_API_URL` and `REACT_APP_WS_URL`. */
  datatype Env = Env(apiUrl: Option<string>, wsUrl: Option<string>)

  const DefaultApiBase := "http://localhost/api"
  const DefaultWsBase := "ws://localhost/ws"

  /** `value || fallback`: an unset variable and an empty one both fall back. */
  function OrDefault(v: Option<string>, fallback: string): string {
    if v.Some? && v.value != "" then v.value else fallback
  }

  function ApiBase(env: Env): string {
    OrDefault(env.apiUrl, DefaultApiBase)
  }

  function WsBase(env: Env): string {
    OrDefault(env.wsUrl, DefaultWsBase)
  }

  function Users(env: Env): string { ApiBase(env) + "/users" }

  function UserCreate(env: Env): string { ApiBase(env) + "/users/create" }

  function UserByNickname(env: Env, nickname: string): string { ApiBase(env) + "/users/by-nickname/" + nickname }

  function UserById(env: Env, id: string): string { ApiBase(env) + "/users/" + id }

  function Messages(env: Env, userId: string): string { ApiBase(env) + "/messages/" + userId }

  function Encrypt(env: Env): string { ApiBase(env) + "/encrypt" }

  function Decrypt(env: Env): string { ApiBase(env) + "/decrypt" }

  /** The live-channel URL: the WebSocket base, a slash, the id. */
  function Ws(env: Env, userId: string): string { WsBase(env) + "/" + userId }

  /** With the variables unset, or set to the empty string, the bases are the local defaults. */
  lemma DefaultBases(env: Env)
    requires env.apiUrl.None? || env.apiUrl == Some("")
    requires env.wsUrl.None? || env.wsUrl == Some("")
    ensures ApiBase(env) == "http://localhost/api"
    ensures WsBase(env) == "ws://localhost/ws"
    ensures Users(env) == "http://localhost/api/users"
    ensures Ws(env, "7") == "ws://localhost/ws/7"
  {
  }

  /** A set variable is used as it is, with nothing appended or stripped. */
  lemma SetBaseUsedVerbatim(env: Env)
    requires env.apiUrl.Some? && env.apiUrl.value != ""
    ensures ApiBase(env) == env.apiUrl.value
    ensures Encrypt(env) == env.apiUrl.value + "/encrypt"
  {
  }

  /**
   * The argument of a parameterised endpoint is the exact tail of the URL,
   * after the base and the literal path: nothing is escaped or dropped.
   */
  lemma ArgumentIsTail(env: Env, arg: string)
    ensures UserById(env, arg)[|ApiBase(env)| + 7..] == arg
    ensures Messages(env, arg)[|ApiBase(env)| + 10..] == arg
    ensures UserByNickname(env, arg)[|ApiBase(env)| + 19..] == arg
    ensures Ws(env, arg)[|WsBase(env)| + 1..] == arg
  {
    var b := ApiBase(env);
    assert UserById(env, arg) == (b + "/users/") + arg;
    assert Messages(env, arg) == (b + "/messages/") + arg;
    assert UserByNickname(env, arg) == (b + "/users/by-nickname/") + arg;
  }

  /** So distinct arguments give distinct URLs. */
  lemma ArgumentInjective(env: Env, a: string, b: string)
    requires UserById(env, a) == UserById(env, b) || Messages(env, a) == Messages(env, b)
          || UserByNickname(env, a) == UserByNickname(env, b) || Ws(env, a) == Ws(env, b)
    ensures a == b
  {
    ArgumentIsTail(env, a);
    ArgumentIsTail(env, b);
  }

  /**
   * Because arguments are inserted unescaped, an id argument can spell
   * another endpoint: the id "create" is the creation URL, and the id
   * "by-nickname/n" is the lookup of nickname n.
   */
  lemma UnescapedArgumentsCollide(env: Env, n: string)
    ensures UserById(env, "create") == UserCreate(env)
    ensures UserById(env, "by-nickname/" + n) == UserByNickname(env, n)
  {
    var b := ApiBase(env);
    assert b + "/users/" + "create" == b + "/users/create";
    assert (b + "/users/") + ("by-nickname/" + n) == (b + "/users/by-nickname/") + n;
  }

  /** The live-channel URL depends on the WebSocket base only, never on the API base. */
  lemma WsIgnoresApiBase(env: Env, api: Option<string>, id: string)
    ensures Ws(env.(apiUrl := api), id) == Ws(env, id)
    ensures Ws(env, id)[..|WsBase(env)| + 1] == WsBase(env) + "/"
  {
  }

  /** Every REST endpoint lies under the API base followed by a slash. */
  lemma EndpointsUnderApiBase(env: Env, arg: string)
    ensures forall u :: u in {Users(env), UserCreate(env), Encrypt(env), Decrypt(env),
                              UserById(env, arg), Messages(env, arg), UserByNickname(env, arg)}
                        ==> |u| > |ApiBase(env)| && u[..|ApiBase(env)| + 1] == ApiBase(env) + "/"
  {
  }
}
