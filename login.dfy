/** The sign-in form of `src/pages/Login.jsx`: two controlled inputs, a submit handler that
    signs in through the session provider and, when that throws, an error message chosen by
    whether the thrown message mentions a deactivated account. `navigate(p)` is the
    `navigatedTo` field. */
module Login {
  import opened Js
  import Api
  import Auth

  const DeactivatedText: string := "Tu cuenta ha sido desactivada. Contacta al administrador."
  const WrongCredentialsText: string := "DNI o contraseña incorrectos"

  /** The description of the error toast for a thrown message. */
  function FailureText(message: string): (t: string)
    ensures t == DeactivatedText <==> Occurs(message, "desactivado")
    ensures t != DeactivatedText ==> t == WrongCredentialsText
  {
    IncludesIff(message, "desactivado");
    if Includes(message, "desactivado") then DeactivatedText else WrongCredentialsText
  }

  /** A backend rejection without a message of its own falls back to the provider's generic
      message, which does not mention a deactivated account. */
  lemma FallbackIsWrongCredentials(body: Obj)
    requires !("message" in body && Truthy(body["message"]))
    ensures FailureText(Auth.ErrorMessage(body, Auth.LoginError)) == WrongCredentialsText
  {
    var m := Auth.LoginError;
    assert forall i :: 0 <= i < |m| ==> m[i] != 'd';
    forall i | 0 <= i <= |m|
      ensures !OccursAt(m, "desactivado", i)
    {
      if i + 11 <= |m| {
        assert m[i..i + 11][0] == m[i];
      }
    }
  }

  class Page {
    var dni: string
    var password: string
    var loading: bool
    /** Where `navigate` last sent the user, if anywhere. */
    var navigatedTo: Option<string>

    constructor()
      ensures dni == "" && password == "" && !loading && navigatedTo == None
    {
      dni := "";
      password := "";
      loading := false;
      navigatedTo := None;
    }

    /** The DNI input. */
    method SetDni(value: string)
      modifies this
      ensures dni == value && password == old(password) && loading == old(loading) && navigatedTo == old(navigatedTo)
    {
      dni := value;
    }

    /** The password input. */
    method SetPassword(value: string)
      modifies this
      ensures password == value && dni == old(dni) && loading == old(loading) && navigatedTo == old(navigatedTo)
    {
      password := value;
    }

    /** `handleSubmit` up to its `await`: `loading` and the login request for the two fields. */
    method StartSubmit() returns (req: Api.Request)
      modifies this
      ensures loading && req == Auth.LoginRequest(dni, password)
      ensures dni == old(dni) && password == old(password) && navigatedTo == old(navigatedTo)
    {
      loading := true;
      req := Auth.LoginRequest(dni, password);
    }

    /** The rest of `handleSubmit`: the provider's `login` finishes; when it returns the user
        goes to `/dashboard`, when it throws the error toast (`error`) is chosen from the thrown
        message; `loading` ends in both cases. */
    method FinishSubmit(auth: Auth.Provider, reply: Auth.Reply) returns (error: Option<string>)
      requires auth.Valid()
      modifies this, auth
      ensures auth.Valid() && !loading && dni == old(dni) && password == old(password)
      ensures auth.loading == old(auth.loading)
      ensures reply.Accepted? ==> error == None && navigatedTo == Some("/dashboard")
                                  && auth.user == Some(reply.usuario)
                                  && auth.storage == old(auth.storage)["token" := Auth.Plain(reply.token)]["user" := Auth.UserJson(reply.usuario)]
      ensures reply.Rejected? ==> error == Some(FailureText(Auth.ErrorMessage(reply.body, Auth.LoginError)))
      ensures reply.Unreachable? ==> error == Some(FailureText(reply.message))
      ensures !reply.Accepted? ==> navigatedTo == old(navigatedTo) && auth.user == old(auth.user)
                                   && auth.storage == old(auth.storage)
    {
      var outcome := auth.FinishLogin(reply);
      match outcome {
        case Returned(_) =>
          navigatedTo := Some("/dashboard");
          error := None;
        case Threw(message) =>
          error := Some(FailureText(message));
      }
      loading := false;
    }
  }
}
