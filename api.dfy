/** Request construction of `src/services/api.service.js`: the configuration `fetchWithAuth`
    hands to `fetch`, the handling of its response, and the endpoint helpers of each service.
    The network itself is not modelled: a response is an input. */
module Api {
  import opened Js

  const ApiUrl: string := "https://padel.srv805858.hstgr.cloud"
  const Json: string := "application/json"
  const DefaultError: string := "Error en la petición"

  type Headers = map<string, string>

  /** The `options` argument of `fetchWithAuth`; a missing verb is a GET. */
  datatype Options = Options(verb: Option<string>, headers: Headers, body: Option<Obj>)

  const NoOptions: Options := Options(None, map[], None)

  /** A service call: the endpoint and options passed to `fetchWithAuth`. */
  datatype Call = Call(endpoint: string, options: Options)

  /** What reaches `fetch`: the URL and the configuration object. */
  datatype Request = Request(url: string, verb: Option<string>, headers: Headers, body: Option<Obj>)

  /** The outcome of an awaited service call: the parsed body, or the message it threw. */
  datatype Fetched<T> = Ok(data: T) | Err(message: string)

  /** `...(token && { 'Authorization': 'Bearer ' + token })`. */
  function BearerHeader(token: Option<string>): Headers {
    if TruthyText(token) then map["Authorization" := "Bearer " + token.value] else map[]
  }

  /** The configuration `fetchWithAuth` builds from a call and the stored token: JSON
      content type unless the caller chose one, the caller's headers, and the Bearer
      credential of section 2.1 of RFC 6750 whenever a token is stored. */
  function FetchWithAuth(call: Call, token: Option<string>): (r: Request)
    ensures r.url == ApiUrl + call.endpoint
    ensures r.verb == call.options.verb && r.body == call.options.body
    ensures r.headers.Keys == call.options.headers.Keys + {"Content-Type"}
                              + (if TruthyText(token) then {"Authorization"} else {})
    ensures r.headers["Content-Type"] ==
            if "Content-Type" in call.options.headers then call.options.headers["Content-Type"] else Json
    ensures TruthyText(token) ==> r.headers["Authorization"] == "Bearer " + token.value
    ensures forall k :: k in call.options.headers && !(k == "Authorization" && TruthyText(token))
                        ==> r.headers[k] == call.options.headers[k]
  {
    Request(ApiUrl + call.endpoint, call.options.verb,
            map["Content-Type" := Json] + call.options.headers + BearerHeader(token),
            call.options.body)
  }

  /** A stored token always wins over a caller's Authorization; with no token the caller's
      value, if any, is what is sent. */
  lemma AuthorizationPrecedence(call: Call, token: Option<string>)
    ensures "Authorization" in FetchWithAuth(call, token).headers
            <==> TruthyText(token) || "Authorization" in call.options.headers
    ensures !TruthyText(token) && "Authorization" in call.options.headers ==>
            FetchWithAuth(call, token).headers["Authorization"] == call.options.headers["Authorization"]
  {
  }

  /** `if (!response.ok) throw new Error(error.message || 'Error en la petición'); return response.json()`. */
  function HandleResponse(ok: bool, json: Obj): (r: Fetched<Obj>)
    ensures r.Ok? <==> ok
    ensures r.Ok? ==> r.data == json
    ensures r.Err? && "message" in json && Truthy(json["message"]) ==> r.message == Text(json["message"])
    ensures r.Err? && !("message" in json && Truthy(json["message"])) ==> r.message == DefaultError
  {
    if ok then Ok(json)
    else if "message" in json && Truthy(json["message"]) then Err(Text(json["message"]))
    else Err(DefaultError)
  }

  // ---------------------------------------------------------------- endpoint helpers

  function Get(endpoint: string): Call { Call(endpoint, NoOptions) }

  function Send(endpoint: string, verb: string, body: Obj): Call {
    Call(endpoint, Options(Some(verb), map[], Some(body)))
  }

  function Bare(endpoint: string, verb: string): Call {
    Call(endpoint, Options(Some(verb), map[], None))
  }

  function Id(id: int): string { IntToString(id) }

  // canchasService
  function CanchasGetAll(): Call { Get("/canchas") }
  function CanchasGetById(id: int): Call { Get("/canchas/" + Id(id)) }
  function CanchasCreate(data: Obj): Call { Send("/canchas", "POST", data) }
  function CanchasUpdate(id: int, data: Obj): Call { Send("/canchas/" + Id(id), "PATCH", data) }
  function CanchasDelete(id: int): Call { Bare("/canchas/" + Id(id), "DELETE") }

  // horariosService
  function HorariosGetAll(): Call { Get("/horarios") }
  function HorariosGetById(id: int): Call { Get("/horarios/" + Id(id)) }
  function HorariosCreate(data: Obj): Call { Send("/horarios", "POST", data) }
  function HorariosGenerarDefault(): Call { Bare("/horarios/generar-default", "POST") }

  // reservasService
  function ReservasCreate(data: Obj): Call { Send("/reservas", "POST", data) }
  function ReservasGetAll(): Call { Get("/reservas") }
  function ReservasGetMisReservas(): Call { Get("/reservas/mis-reservas") }
  function ReservasGetByCancha(idCancha: string, fecha: string): Call {
    Get("/reservas/cancha/" + idCancha + "?fecha=" + fecha)
  }
  /** The lookup that the court-and-day effects of the booking pages issue: none while no
      court is chosen (the day always is), otherwise `getByCancha` for that court and day. */
  function CourtDayLookup(idCancha: string, fecha: string): (c: Option<Call>)
    ensures c.Some? <==> idCancha != ""
    ensures c.Some? ==> c.value.endpoint == "/reservas/cancha/" + idCancha + "?fecha=" + fecha
                        && c.value.options == NoOptions
  {
    if idCancha != "" then Some(ReservasGetByCancha(idCancha, fecha)) else None
  }
  function ReservasGetById(id: int): Call { Get("/reservas/" + Id(id)) }
  function ReservasUpdate(id: int, data: Obj): Call { Send("/reservas/" + Id(id), "PATCH", data) }
  function ReservasCancel(id: int): Call { Bare("/reservas/" + Id(id) + "/cancel", "PATCH") }
  function ReservasDelete(id: int): Call { Bare("/reservas/" + Id(id), "DELETE") }
  function ReservasCreateRecurrente(data: Obj): Call { Send("/reservas/recurrente", "POST", data) }
  function ReservasGetMisRecurrentes(): Call { Get("/reservas/recurrente/mis-reservas") }
  function ReservasCancelRecurrente(id: int): Call { Bare("/reservas/recurrente/" + Id(id), "DELETE") }

  // usuariosService
  function UsuariosGetAll(): Call { Get("/usuarios") }
  function UsuariosGetById(id: int): Call { Get("/usuarios/" + Id(id)) }
  function UsuariosUpdate(id: int, data: Obj): Call { Send("/usuarios/" + Id(id), "PATCH", data) }
  function UsuariosUpdateRole(id: int, rol: string): Call {
    Send("/usuarios/" + Id(id) + "/rol", "PATCH", map["rol" := Str(rol)])
  }
  function UsuariosToggleActive(id: int, activo: bool): Call {
    Send("/usuarios/" + Id(id) + "/estado", "PATCH", map["activo" := Bool(activo)])
  }
  function UsuariosDelete(id: int): Call { Bare("/usuarios/" + Id(id), "DELETE") }

  // authService: plain fetch, no token
  function AuthLogin(dni: string, password: string): Request {
    Request(ApiUrl + "/auth/login", Some("POST"), map["Content-Type" := Json],
            Some(map["dni" := Str(dni), "password" := Str(password)]))
  }
  function AuthRegister(userData: Obj): Request {
    Request(ApiUrl + "/auth/register", Some("POST"), map["Content-Type" := Json], Some(userData))
  }
  function AuthGetProfile(): Call { Get("/auth/profile") }

  // ---------------------------------------------------------------- properties of the endpoints

  lemma {:induction false} IdInjective(a: int, b: int)
    ensures Id(a) == Id(b) <==> a == b
  {
    if Id(a) == Id(b) {
      ParseIntToString(a);
      ParseIntToString(b);
    }
  }

  /** The id in a path identifies the record: `"/x/" + Id(a) + suffix` differs for different ids. */
  lemma PathInjective(prefix: string, a: int, b: int, suffix: string)
    ensures prefix + Id(a) + suffix == prefix + Id(b) + suffix <==> a == b
  {
    if prefix + Id(a) + suffix == prefix + Id(b) + suffix {
      var s := prefix + Id(a) + suffix;
      assert |Id(a)| == |Id(b)|;
      assert Id(a) == s[|prefix|..|prefix| + |Id(a)|];
      assert Id(b) == s[|prefix|..|prefix| + |Id(b)|];
      IdInjective(a, b);
    }
  }

  /** Cancelling a booking is a PATCH on `/reservas/:id/cancel`; deleting it is a DELETE on
      `/reservas/:id`; each targets exactly the booking named by its id. */
  lemma CancelAndDelete(a: int, b: int)
    ensures ReservasCancel(a).options.verb == Some("PATCH")
    ensures ReservasCancel(a).endpoint == "/reservas/" + Id(a) + "/cancel"
    ensures ReservasDelete(a).options.verb == Some("DELETE")
    ensures ReservasDelete(a).endpoint == "/reservas/" + Id(a)
    ensures ReservasCancel(a).endpoint != ReservasDelete(b).endpoint
    ensures ReservasDelete(a) == ReservasDelete(b) <==> a == b
    ensures ReservasCancel(a) == ReservasCancel(b) <==> a == b
  {
    PathInjective("/reservas/", a, b, "");
    PathInjective("/reservas/", a, b, "/cancel");
    assert "/reservas/" + Id(a) + "" == "/reservas/" + Id(a);
    assert "/reservas/" + Id(b) + "" == "/reservas/" + Id(b);
    // the cancel path ends in "l", a delete path ends in a digit
    var c := ReservasCancel(a).endpoint;
    var d := ReservasDelete(b).endpoint;
    var t := Id(b);
    assert c[|c| - 1] == 'l';
    assert d[|d| - 1] == t[|t| - 1];
    assert IsDigit(t[|t| - 1]);
  }

  /** `getByCancha` puts the court id in the path and the date in the `fecha` query. */
  lemma GetByCanchaShape(idCancha: string, fecha: string)
    ensures var e := ReservasGetByCancha(idCancha, fecha).endpoint;
      e == "/reservas/cancha/" + idCancha + "?fecha=" + fecha
      && e[..17] == "/reservas/cancha/" && e[|e| - |fecha|..] == fecha
    ensures ReservasGetByCancha(idCancha, fecha).options == NoOptions
  {
  }

  /** Role and status changes are PATCH requests whose bodies carry only `rol` or `activo`. */
  lemma UserMutations(id: int, rol: string, activo: bool)
    ensures UsuariosUpdateRole(id, rol).options.verb == Some("PATCH")
    ensures UsuariosUpdateRole(id, rol).options.body == Some(map["rol" := Str(rol)])
    ensures UsuariosToggleActive(id, activo).options.verb == Some("PATCH")
    ensures UsuariosToggleActive(id, activo).options.body == Some(map["activo" := Bool(activo)])
    ensures UsuariosUpdateRole(id, rol).endpoint != UsuariosToggleActive(id, activo).endpoint
  {
    var r := UsuariosUpdateRole(id, rol).endpoint;
    var t := UsuariosToggleActive(id, activo).endpoint;
    assert r[|r| - 1] == 'l' && t[|t| - 1] == 'o';
  }

  /** Logging in and registering never send a credential, whatever the stored token. */
  lemma AuthCallsCarryNoCredential(dni: string, password: string, userData: Obj)
    ensures "Authorization" !in AuthLogin(dni, password).headers
    ensures "Authorization" !in AuthRegister(userData).headers
    ensures AuthLogin(dni, password).headers["Content-Type"] == Json
    ensures AuthLogin(dni, password).body == Some(map["dni" := Str(dni), "password" := Str(password)])
  {
  }
}
