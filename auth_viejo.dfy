/** The earlier session store of `src/contexts/AuthContextViejo.jsx`: no backend at all, a mock
    user written to the `'user'` key only. `Date.now()` is a parameter. */
module AuthViejo {
  import opened Js
  import Auth

  const Jugador: string := "jugador"

  /** The mock user `login` builds from the DNI. */
  function MockUser(dni: string): (u: Obj)
    ensures u.Keys == {"idUsuario", "dni", "email", "nombre", "apellido", "rol"}
    ensures u["idUsuario"] == Num(1) && u["dni"] == Str(dni) && u["email"] == Str(dni + "@example.com")
    ensures u["nombre"] == Str("Usuario") && u["apellido"] == Str("Demo") && u["rol"] == Str(Jugador)
  {
    map["idUsuario" := Num(1), "dni" := Str(dni), "email" := Str(dni + "@example.com"),
        "nombre" := Str("Usuario"), "apellido" := Str("Demo"), "rol" := Str(Jugador)]
  }

  /** `{ idUsuario: now, ...userData, rol: 'jugador' }`. */
  function RegisteredUser(userData: Obj, now: int): Obj {
    Spread(Spread(map["idUsuario" := Num(now)], userData), map["rol" := Str(Jugador)])
  }

  /** The registered user is the form data with an id and the player role: the form may set its
      own `idUsuario` but never its role. */
  lemma RegisteredUserFields(userData: Obj, now: int)
    ensures RegisteredUser(userData, now).Keys == userData.Keys + {"idUsuario", "rol"}
    ensures RegisteredUser(userData, now)["rol"] == Str(Jugador)
    ensures RegisteredUser(userData, now)["idUsuario"] ==
            if "idUsuario" in userData then userData["idUsuario"] else Num(now)
    ensures forall k :: k in userData && k != "rol" ==> RegisteredUser(userData, now)[k] == userData[k]
  {
  }

  class Provider {
    var user: Option<Obj>
    var loading: bool
    var storage: Auth.Storage

    ghost predicate Valid()
      reads this
    {
      Auth.WellFormed(storage)
    }

    constructor(stored: Auth.Storage)
      requires Auth.WellFormed(stored)
      ensures Valid() && user == None && loading && storage == stored
    {
      user := None;
      loading := true;
      storage := stored;
    }

    /** The start-up effect: a stored user is restored whether or not a token is stored;
        `loading` ends in every case. */
    method Restore()
      requires Valid()
      modifies this
      ensures Valid() && !loading && storage == old(storage)
      ensures user == if Auth.StoredTruthy(storage, "user") then Some(storage["user"].u) else old(user)
    {
      if Auth.StoredTruthy(storage, "user") {
        user := Some(storage["user"].u);
      }
      loading := false;
    }

    /** The mock `login`: signs in and stores the mock user of the DNI; the password is not
        looked at. */
    method Login(dni: string, password: string) returns (u: Obj)
      requires Valid()
      modifies this
      ensures Valid() && u == MockUser(dni) && user == Some(u)
      ensures storage == old(storage)["user" := Auth.UserJson(u)] && loading == old(loading)
    {
      u := MockUser(dni);
      user := Some(u);
      storage := storage["user" := Auth.UserJson(u)];
    }

    /** The mock `register`, at time `now`. */
    method Register(userData: Obj, now: int) returns (u: Obj)
      requires Valid()
      modifies this
      ensures Valid() && u == RegisteredUser(userData, now) && user == Some(u)
      ensures storage == old(storage)["user" := Auth.UserJson(u)] && loading == old(loading)
    {
      u := RegisteredUser(userData, now);
      user := Some(u);
      storage := storage["user" := Auth.UserJson(u)];
    }

    /** `logout`: no user and no `'user'` key; any token is left behind. */
    method Logout()
      requires Valid()
      modifies this
      ensures Valid() && user == None && loading == old(loading)
      ensures storage == old(storage) - {"user"}
    {
      user := None;
      storage := storage - {"user"};
    }
  }

  /** A mock login survives a restart over the same storage, whatever was stored before. */
  method LoginSurvivesReload(stored: Auth.Storage, dni: string, password: string) returns (restored: Option<Obj>)
    requires Auth.WellFormed(stored)
    ensures restored == Some(MockUser(dni))
  {
    var first := new Provider(stored);
    first.Restore();
    var _ := first.Login(dni, password);
    var second := new Provider(first.storage);
    second.Restore();
    restored := second.user;
  }

  /** After a logout the next start restores no one, even when a token was stored. */
  method LogoutSurvivesReload(stored: Auth.Storage) returns (restored: Option<Obj>)
    requires Auth.WellFormed(stored)
    ensures restored == None
  {
    var first := new Provider(stored);
    first.Restore();
    first.Logout();
    var second := new Provider(first.storage);
    second.Restore();
    restored := second.user;
  }
}
