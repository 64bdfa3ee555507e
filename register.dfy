/** The sign-up form of `src/pages/Register.jsx`: seven controlled inputs in one form object,
    a password confirmation check, and a submit handler that registers through the session
    provider. `navigate(p)` is the `navigatedTo` field. */
module Register {
  import opened Js
  import Api
  import Auth

  /** The names of the form's inputs. */
  const FormKeys: set<string> := {"dni", "email", "nombre", "apellido", "telefono", "clave", "confirmPassword"}

  const EmptyForm: Obj := map["dni" := Str(""), "email" := Str(""), "nombre" := Str(""),
                              "apellido" := Str(""), "telefono" := Str(""), "clave" := Str(""),
                              "confirmPassword" := Str("")]

  const MismatchText: string := "Las contraseñas no coinciden"
  const FailureText: string := "No se pudo crear la cuenta. Intenta nuevamente."

  /** The confirmation check of `handleSubmit`: the two password inputs hold the same value. */
  predicate Confirmed(form: Obj)
    requires "clave" in form && "confirmPassword" in form
  {
    form["clave"] == form["confirmPassword"]
  }

  class Page {
    var formData: Obj
    var loading: bool
    /** Where `navigate` last sent the user, if anywhere. */
    var navigatedTo: Option<string>

    /** Every input has its entry in the form. */
    ghost predicate Valid()
      reads this
    {
      FormKeys <= formData.Keys
    }

    constructor()
      ensures Valid() && formData == EmptyForm && !loading && navigatedTo == None
    {
      formData := EmptyForm;
      loading := false;
      navigatedTo := None;
    }

    /** `handleChange`: the named entry takes the input's value, every other entry stays. */
    method Change(name: string, value: string)
      requires Valid()
      modifies this
      ensures Valid() && formData == old(formData)[name := Str(value)]
      ensures formData.Keys == old(formData.Keys) + {name}
      ensures forall k :: k in old(formData) && k != name ==> formData[k] == old(formData)[k]
      ensures loading == old(loading) && navigatedTo == old(navigatedTo)
    {
      formData := formData[name := Str(value)];
    }

    /** `handleSubmit` up to its `await`: with different passwords the mismatch toast
        (`error`) and nothing else; otherwise `loading` and the register request, whose body is
        the whole form, the confirmation included. */
    method StartSubmit() returns (req: Option<Api.Request>, error: Option<string>)
      requires Valid()
      modifies this
      ensures Valid() && formData == old(formData) && navigatedTo == old(navigatedTo)
      ensures req.Some? <==> Confirmed(formData)
      ensures error.Some? <==> !Confirmed(formData)
      ensures req.Some? ==> req.value == Auth.RegisterRequest(formData) && loading
      ensures error.Some? ==> error.value == MismatchText && loading == old(loading)
    {
      if formData["clave"] != formData["confirmPassword"] {
        req := None;
        error := Some(MismatchText);
        return;
      }
      loading := true;
      req := Some(Auth.RegisterRequest(formData));
      error := None;
    }

    /** The rest of `handleSubmit`: the provider's `register` finishes; when it returns the
        user goes to `/dashboard`, when it throws a fixed error toast (`error`) is shown;
        `loading` ends in both cases. */
    method FinishSubmit(auth: Auth.Provider, reply: Auth.Reply) returns (error: Option<string>)
      requires Valid() && auth.Valid()
      modifies this, auth
      ensures Valid() && auth.Valid() && !loading && formData == old(formData)
      ensures auth.loading == old(auth.loading)
      ensures error.None? <==> reply.Accepted?
      ensures reply.Accepted? ==> navigatedTo == Some("/dashboard") && auth.user == Some(reply.usuario)
                                  && auth.storage == old(auth.storage)["token" := Auth.Plain(reply.token)]["user" := Auth.UserJson(reply.usuario)]
      ensures !reply.Accepted? ==> error == Some(FailureText) && navigatedTo == old(navigatedTo)
                                   && auth.user == old(auth.user) && auth.storage == old(auth.storage)
    {
      var outcome := auth.FinishRegister(reply);
      if outcome.Returned? {
        navigatedTo := Some("/dashboard");
        error := None;
      } else {
        error := Some(FailureText);
      }
      loading := false;
    }
  }

  /** Typing the same password in both inputs and submitting sends the register request with
      the other five entries as they were and both passwords equal to what was typed. */
  method TypedPasswordsSubmit(clave: string) returns (req: Option<Api.Request>, error: Option<string>)
    ensures error == None && req.Some?
    ensures req.value.body.Some? && req.value.body.value.Keys == FormKeys
    ensures req.value.body.value["clave"] == Str(clave) && req.value.body.value["confirmPassword"] == Str(clave)
    ensures forall k :: k in FormKeys && k != "clave" && k != "confirmPassword" ==> req.value.body.value[k] == Str("")
  {
    var p := new Page();
    p.Change("clave", clave);
    p.Change("confirmPassword", clave);
    req, error := p.StartSubmit();
  }

  /** Different passwords never reach the provider. */
  method MismatchSendsNothing(clave: string, other: string) returns (req: Option<Api.Request>, error: Option<string>)
    requires clave != other
    ensures req == None && error == Some(MismatchText)
  {
    var p := new Page();
    p.Change("clave", clave);
    p.Change("confirmPassword", other);
    req, error := p.StartSubmit();
  }
}
