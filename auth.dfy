/** The session store of `src/contexts/AuthContext.jsx`: the signed-in `user`, the start-up
    `loading` flag and the `localStorage` keys `'user'` and `'token'`. The context talks to its
    own backend address with plain `fetch`; each awaited response is an input of the handler
    that awaits it. */
module Auth {
  import opened Js
  import Api

  /** The backend address this context uses (the services use `Api.ApiUrl`). */
  const LocalApiUrl: string := "http://localhost:3000"

  const LoginError: string := "Error al iniciar sesión"
  const RegisterError: string := "Error al registrarse"

  /** A stored item: a plain string such as the token, or the JSON text of a user record (the
      JSON round trip is the identity). */
  datatype Stored = Plain(s: string) | UserJson(u: Obj)

  /** `localStorage`. */
  type Storage = map<string, Stored>

  /** `localStorage.getItem(key)` is truthy: present and not the empty string (the JSON text of
      a record never is). */
  predicate StoredTruthy(st: Storage, key: string) {
    key in st && (st[key].Plain? ==> st[key].s != "")
  }

  /** The user item is a user record and the token item a string, as `login` and
      `register` write them. */
  predicate WellFormed(st: Storage) {
    ("user" in st ==> st["user"].UserJson?) && ("token" in st ==> st["token"].Plain?)
  }

  /** `localStorage.removeItem` of both session keys. */
  function Cleared(st: Storage): (r: Storage)
    ensures "user" !in r && "token" !in r
    ensures forall k :: k in st && k != "user" && k != "token" ==> k in r && r[k] == st[k]
    ensures r.Keys <= st.Keys
  {
    st - {"user", "token"}
  }

  /** What a login or register response turns out to be: `ok` with the token and the user,
      not `ok` with an error body, or a `fetch` that threw with its own message. */
  datatype Reply = Accepted(token: string, usuario: Obj) | Rejected(body: Obj) | Unreachable(message: string)

  /** How a `login` or `register` call ends for its caller. */
  datatype Outcome = Returned(usuario: Obj) | Threw(message: string)

  /** `error.message || fallback`. */
  function ErrorMessage(body: Obj, fallback: string): (m: string)
    ensures "message" in body && Truthy(body["message"]) ==> m == Text(body["message"])
    ensures !("message" in body && Truthy(body["message"])) ==> m == fallback
  {
    if "message" in body && Truthy(body["message"]) then Text(body["message"]) else fallback
  }

  /** The text of `${token}` for the stored token, `null` when there is none. */
  function TokenText(token: Option<string>): string {
    if token.Some? then token.value else "null"
  }

  /** `fetchWithAuth`: the caller's options with the caller's headers, then a Bearer
      credential (section 2.1 of RFC 6750) and the JSON content type that always override the
      caller's values, even when no token is stored. */
  function FetchWithAuth(url: string, options: Api.Options, token: Option<string>): (r: Api.Request)
    ensures r.url == LocalApiUrl + url && r.verb == options.verb && r.body == options.body
    ensures r.headers.Keys == options.headers.Keys + {"Authorization", "Content-Type"}
    ensures r.headers["Authorization"] == "Bearer " + TokenText(token)
    ensures r.headers["Content-Type"] == Api.Json
    ensures forall k :: k in options.headers && k != "Authorization" && k != "Content-Type"
                        ==> r.headers[k] == options.headers[k]
  {
    Api.Request(LocalApiUrl + url, options.verb,
                options.headers + map["Authorization" := "Bearer " + TokenText(token), "Content-Type" := Api.Json],
                options.body)
  }

  /** The profile request of `verifyToken`. */
  function ProfileRequest(token: string): (r: Api.Request)
    ensures r.url == LocalApiUrl + "/auth/profile" && r.verb.None? && r.body.None?
    ensures r.headers == map["Authorization" := "Bearer " + token, "Content-Type" := Api.Json]
  {
    Api.Request(LocalApiUrl + "/auth/profile", None,
                map["Authorization" := "Bearer " + token, "Content-Type" := Api.Json], None)
  }

  /** The request of `login`: JSON content type, no credential. */
  function LoginRequest(dni: string, password: string): (r: Api.Request)
    ensures r.url == LocalApiUrl + "/auth/login" && r.verb == Some("POST")
    ensures r.headers == map["Content-Type" := Api.Json] && "Authorization" !in r.headers
    ensures r.body == Some(map["dni" := Str(dni), "password" := Str(password)])
  {
    Api.Request(LocalApiUrl + "/auth/login", Some("POST"), map["Content-Type" := Api.Json],
                Some(map["dni" := Str(dni), "password" := Str(password)]))
  }

  /** The request of `register`: the form data as the body, no credential. */
  function RegisterRequest(userData: Obj): (r: Api.Request)
    ensures r.url == LocalApiUrl + "/auth/register" && r.verb == Some("POST")
    ensures r.headers == map["Content-Type" := Api.Json] && "Authorization" !in r.headers
    ensures r.body == Some(userData)
  {
    Api.Request(LocalApiUrl + "/auth/register", Some("POST"), map["Content-Type" := Api.Json], Some(userData))
  }

  /** How the profile lookup of `verifyToken` ends. */
  datatype ProfileOutcome = ResponseOk | ResponseNotOk | NetworkError

  class Provider {
    var user: Option<Obj>
    var loading: bool
    var storage: Storage

    ghost predicate Valid()
      reads this
    {
      WellFormed(storage)
    }

    /** The provider as first rendered, over what the browser has stored. */
    constructor(stored: Storage)
      requires WellFormed(stored)
      ensures Valid() && user == None && loading && storage == stored
    {
      user := None;
      loading := true;
      storage := stored;
    }

    /** `isAuthenticated`. */
    function IsAuthenticated(): (b: bool)
      reads this
      ensures b <==> user.Some?
    {
      user.Some?
    }

    /** The start-up effect: with both a stored user and a stored token the user is restored
        and the token is checked (the returned request); `loading` ends in every case. */
    method Restore() returns (verify: Option<Api.Request>)
      requires Valid()
      modifies this
      ensures Valid() && !loading && storage == old(storage)
      ensures verify.Some? <==> StoredTruthy(storage, "user") && StoredTruthy(storage, "token")
      ensures verify.Some? ==> user == Some(storage["user"].u)
                               && verify.value == ProfileRequest(storage["token"].s)
      ensures verify.None? ==> user == old(user)
    {
      if StoredTruthy(storage, "user") && StoredTruthy(storage, "token") {
        user := Some(storage["user"].u);
        verify := Some(ProfileRequest(storage["token"].s));
      } else {
        verify := None;
      }
      loading := false;
    }

    /** `logout`: no user and neither session key. */
    method Logout()
      requires Valid()
      modifies this
      ensures Valid() && user == None && !IsAuthenticated()
      ensures storage == Cleared(old(storage)) && loading == old(loading)
    {
      user := None;
      storage := Cleared(storage);
    }

    /** The rest of `verifyToken`: a rejected token or a failed request signs the user out;
        an accepted token changes nothing. */
    method FinishVerify(outcome: ProfileOutcome)
      requires Valid()
      modifies this
      ensures Valid() && loading == old(loading)
      ensures outcome == ResponseOk ==> user == old(user) && storage == old(storage)
      ensures outcome != ResponseOk ==> user == None && storage == Cleared(old(storage))
    {
      if outcome != ResponseOk {
        Logout();
      }
    }

    /** The common tail of `login` and `register`: an accepted reply stores the token and the
        user, signs the user in and returns the user; anything else throws and changes
        nothing. */
    method Finish(reply: Reply, fallback: string) returns (outcome: Outcome)
      requires Valid()
      modifies this
      ensures Valid() && loading == old(loading)
      ensures reply.Accepted? ==> outcome == Returned(reply.usuario) && user == Some(reply.usuario)
                                  && storage == old(storage)["token" := Plain(reply.token)]["user" := UserJson(reply.usuario)]
      ensures reply.Rejected? ==> outcome == Threw(ErrorMessage(reply.body, fallback))
      ensures reply.Unreachable? ==> outcome == Threw(reply.message)
      ensures !reply.Accepted? ==> user == old(user) && storage == old(storage)
    {
      match reply
      case Accepted(token, usuario) =>
        storage := storage["token" := Plain(token)]["user" := UserJson(usuario)];
        user := Some(usuario);
        outcome := Returned(usuario);
      case Rejected(body) =>
        outcome := Threw(ErrorMessage(body, fallback));
      case Unreachable(message) =>
        outcome := Threw(message);
    }

    /** The rest of `login`, after `LoginRequest` was sent. */
    method FinishLogin(reply: Reply) returns (outcome: Outcome)
      requires Valid()
      modifies this
      ensures Valid() && loading == old(loading)
      ensures reply.Accepted? ==> outcome == Returned(reply.usuario) && user == Some(reply.usuario)
                                  && storage == old(storage)["token" := Plain(reply.token)]["user" := UserJson(reply.usuario)]
      ensures reply.Rejected? ==> outcome == Threw(ErrorMessage(reply.body, LoginError))
      ensures reply.Unreachable? ==> outcome == Threw(reply.message)
      ensures !reply.Accepted? ==> user == old(user) && storage == old(storage)
    {
      outcome := Finish(reply, LoginError);
    }

    /** The rest of `register`, after `RegisterRequest` was sent. */
    method FinishRegister(reply: Reply) returns (outcome: Outcome)
      requires Valid()
      modifies this
      ensures Valid() && loading == old(loading)
      ensures reply.Accepted? ==> outcome == Returned(reply.usuario) && user == Some(reply.usuario)
                                  && storage == old(storage)["token" := Plain(reply.token)]["user" := UserJson(reply.usuario)]
      ensures reply.Rejected? ==> outcome == Threw(ErrorMessage(reply.body, RegisterError))
      ensures reply.Unreachable? ==> outcome == Threw(reply.message)
      ensures !reply.Accepted? ==> user == old(user) && storage == old(storage)
    {
      outcome := Finish(reply, RegisterError);
    }
  }

  /** A session saved by a login with a non-empty token is restored, with its token checked,
      when the application starts again over the same storage. */
  method LoginSurvivesReload(stored: Storage, token: string, usuario: Obj) returns (restored: Option<Obj>, verify: Option<Api.Request>)
    requires WellFormed(stored) && token != ""
    ensures restored == Some(usuario) && verify == Some(ProfileRequest(token))
  {
    var first := new Provider(stored);
    var _ := first.Restore();
    var _ := first.FinishLogin(Accepted(token, usuario));
    var second := new Provider(first.storage);
    verify := second.Restore();
    restored := second.user;
  }

  /** After a logout the next start restores no one. */
  method LogoutSurvivesReload(stored: Storage) returns (restored: Option<Obj>, verify: Option<Api.Request>)
    requires WellFormed(stored)
    ensures restored == None && verify == None
  {
    var first := new Provider(stored);
    var _ := first.Restore();
    first.Logout();
    var second := new Provider(first.storage);
    verify := second.Restore();
    restored := second.user;
  }
}
