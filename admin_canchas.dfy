/** The court administration page of `src/pages/AdminCanchas.jsx`: the court list, the
    create/edit dialog with its form, and the (deactivating) delete. Each awaited service call
    is an input of the handler that awaits it. A missing property of a court record reads as
    `Null` (both are falsy). */
module AdminCanchas {
  import opened Js
  import Api

  /** A court as the backend returns it. */
  datatype Cancha = Cancha(idCancha: int, numero: Value, tipo: Value, descripcion: Value, activa: Value)

  /** The dialog's `formData`. */
  datatype Form = Form(numero: Value, tipo: Value, descripcion: Value, activa: Value)

  const EmptyForm: Form := Form(Str(""), Str(""), Str(""), Bool(true))

  /** The form as the object posted to the service. */
  function FormObj(f: Form): (o: Obj)
    ensures o.Keys == {"numero", "tipo", "descripcion", "activa"}
    ensures o["numero"] == f.numero && o["tipo"] == f.tipo
    ensures o["descripcion"] == f.descripcion && o["activa"] == f.activa
  {
    map["numero" := f.numero, "tipo" := f.tipo, "descripcion" := f.descripcion, "activa" := f.activa]
  }

  /** The form filled from a court: its fields, with `descripcion || ''`. */
  function FormOf(c: Cancha): (f: Form)
    ensures f.numero == c.numero && f.tipo == c.tipo && f.activa == c.activa
    ensures f.descripcion == if Truthy(c.descripcion) then c.descripcion else Str("")
  {
    Form(c.numero, c.tipo, if Truthy(c.descripcion) then c.descripcion else Str(""), c.activa)
  }

  /** The inputs of the form: `handleChange(field, value)`. */
  datatype Field = Numero | Tipo | Descripcion

  function Get(f: Form, field: Field): Value {
    match field
    case Numero => f.numero
    case Tipo => f.tipo
    case Descripcion => f.descripcion
  }

  function SetField(f: Form, field: Field, v: Value): Form {
    match field
    case Numero => f.(numero := v)
    case Tipo => f.(tipo := v)
    case Descripcion => f.(descripcion := v)
  }

  /** A change sets the named field and no other one. */
  lemma SetFieldOnly(f: Form, field: Field, v: Value, other: Field)
    ensures Get(SetField(f, field, v), other) == if other == field then v else Get(f, other)
    ensures SetField(f, field, v).activa == f.activa
  {
  }

  /** The required-field gate of `handleSubmit`. */
  predicate Complete(f: Form) {
    Truthy(f.numero) && Truthy(f.tipo)
  }

  /** The request `handleSubmit` sends once the gate passes. */
  function SaveCall(editing: Option<Cancha>, f: Form): (c: Api.Call)
    ensures editing.Some? ==> c == Api.CanchasUpdate(editing.value.idCancha, FormObj(f))
    ensures editing.None? ==> c == Api.CanchasCreate(FormObj(f))
  {
    if editing.Some? then Api.CanchasUpdate(editing.value.idCancha, FormObj(f)) else Api.CanchasCreate(FormObj(f))
  }

  /** Editing goes to the court's own path with PATCH, creating to the collection with POST. */
  lemma SaveCallShape(editing: Option<Cancha>, f: Form)
    ensures SaveCall(editing, f).options.body == Some(FormObj(f))
    ensures SaveCall(editing, f).options.verb == if editing.Some? then Some("PATCH") else Some("POST")
    ensures editing.None? <==> SaveCall(editing, f).endpoint == "/canchas"
  {
    if editing.Some? {
      var e := SaveCall(editing, f).endpoint;
      assert |e| > |"/canchas"|;
    }
  }

  class Page {
    var canchas: seq<Cancha>
    var loading: bool
    var dialogOpen: bool
    var editingCancha: Option<Cancha>
    /** The id of the court the delete dialog is about, or `null`. */
    var canchaToDelete: Option<int>
    var formData: Form

    constructor()
      ensures canchas == [] && loading && !dialogOpen && editingCancha == None
      ensures canchaToDelete == None && formData == EmptyForm
    {
      canchas := [];
      loading := true;
      dialogOpen := false;
      editingCancha := None;
      canchaToDelete := None;
      formData := EmptyForm;
    }

    /** `loadCanchas` up to its `await`. */
    method StartLoad() returns (call: Api.Call)
      modifies this
      ensures loading && call == Api.CanchasGetAll()
      ensures canchas == old(canchas) && dialogOpen == old(dialogOpen) && editingCancha == old(editingCancha)
      ensures canchaToDelete == old(canchaToDelete) && formData == old(formData)
    {
      loading := true;
      call := Api.CanchasGetAll();
    }

    /** The rest of `loadCanchas`: the list on success, a toast otherwise; `loading` ends. */
    method FinishLoad(res: Api.Fetched<seq<Cancha>>)
      modifies this
      ensures !loading && canchas == if res.Ok? then res.data else old(canchas)
      ensures dialogOpen == old(dialogOpen) && editingCancha == old(editingCancha)
      ensures canchaToDelete == old(canchaToDelete) && formData == old(formData)
    {
      if res.Ok? {
        canchas := res.data;
      }
      loading := false;
    }

    /** `handleOpenDialog(cancha)` (`Some`) or `handleOpenDialog()` (`None`). */
    method OpenDialog(cancha: Option<Cancha>)
      modifies this
      ensures dialogOpen && editingCancha == cancha
      ensures formData == if cancha.Some? then FormOf(cancha.value) else EmptyForm
      ensures canchas == old(canchas) && loading == old(loading) && canchaToDelete == old(canchaToDelete)
    {
      if cancha.Some? {
        editingCancha := cancha;
        formData := FormOf(cancha.value);
      } else {
        editingCancha := None;
        formData := EmptyForm;
      }
      dialogOpen := true;
    }

    /** `handleCloseDialog`. */
    method CloseDialog()
      modifies this
      ensures !dialogOpen && editingCancha == None && formData == EmptyForm
      ensures canchas == old(canchas) && loading == old(loading) && canchaToDelete == old(canchaToDelete)
    {
      dialogOpen := false;
      editingCancha := None;
      formData := EmptyForm;
    }

    /** The dialog's own `onOpenChange`: only the flag. */
    method SetDialogOpen(open: bool)
      modifies this
      ensures dialogOpen == open && editingCancha == old(editingCancha) && formData == old(formData)
      ensures canchas == old(canchas) && loading == old(loading) && canchaToDelete == old(canchaToDelete)
    {
      dialogOpen := open;
    }

    /** `handleChange`. */
    method Change(field: Field, value: Value)
      modifies this
      ensures formData == SetField(old(formData), field, value)
      ensures dialogOpen == old(dialogOpen) && editingCancha == old(editingCancha)
      ensures canchas == old(canchas) && loading == old(loading) && canchaToDelete == old(canchaToDelete)
    {
      formData := SetField(formData, field, value);
    }

    /** `handleSubmit` up to its `await`: nothing without a number and a type, otherwise the
        update of the court being edited or the creation of a new one. */
    method StartSubmit() returns (call: Option<Api.Call>)
      ensures call.Some? <==> Complete(formData)
      ensures call.Some? ==> call.value == SaveCall(editingCancha, formData)
    {
      if !Truthy(formData.numero) || !Truthy(formData.tipo) {
        call := None;
      } else {
        call := Some(SaveCall(editingCancha, formData));
      }
    }

    /** The rest of `handleSubmit`: on success the dialog is closed and reset and the list
        reloaded (`reload` is that response); on failure only a toast is shown. */
    method FinishSubmit(res: Api.Fetched<Obj>, reload: Api.Fetched<seq<Cancha>>) returns (lookup: Option<Api.Call>)
      modifies this
      ensures lookup.Some? <==> res.Ok?
      ensures res.Ok? ==> lookup.value == Api.CanchasGetAll() && !dialogOpen && editingCancha == None
                          && formData == EmptyForm && !loading
                          && canchas == (if reload.Ok? then reload.data else old(canchas))
      ensures res.Err? ==> dialogOpen == old(dialogOpen) && editingCancha == old(editingCancha)
                           && formData == old(formData) && canchas == old(canchas) && loading == old(loading)
      ensures canchaToDelete == old(canchaToDelete)
    {
      if res.Ok? {
        CloseDialog();
        var c := StartLoad();
        FinishLoad(reload);
        lookup := Some(c);
      } else {
        lookup := None;
      }
    }

    /** The delete button of a card (commented out in the page) and the dialog's dismissal. */
    method SetCanchaToDelete(id: Option<int>)
      modifies this
      ensures canchaToDelete == id
      ensures dialogOpen == old(dialogOpen) && editingCancha == old(editingCancha) && formData == old(formData)
      ensures canchas == old(canchas) && loading == old(loading)
    {
      canchaToDelete := id;
    }

    /** `handleDelete` up to its `await`: nothing without a (truthy) id. */
    method StartDelete() returns (call: Option<Api.Call>)
      ensures call.Some? <==> canchaToDelete.Some? && canchaToDelete.value != 0
      ensures call.Some? ==> call.value == Api.CanchasDelete(canchaToDelete.value)
    {
      if canchaToDelete.Some? && canchaToDelete.value != 0 {
        call := Some(Api.CanchasDelete(canchaToDelete.value));
      } else {
        call := None;
      }
    }

    /** The rest of `handleDelete`: on success the id is cleared and the list reloaded; on
        failure only a toast is shown. */
    method FinishDelete(res: Api.Fetched<Obj>, reload: Api.Fetched<seq<Cancha>>) returns (lookup: Option<Api.Call>)
      modifies this
      ensures lookup.Some? <==> res.Ok?
      ensures res.Ok? ==> lookup.value == Api.CanchasGetAll() && canchaToDelete == None && !loading
                          && canchas == (if reload.Ok? then reload.data else old(canchas))
      ensures res.Err? ==> canchaToDelete == old(canchaToDelete) && canchas == old(canchas) && loading == old(loading)
      ensures dialogOpen == old(dialogOpen) && editingCancha == old(editingCancha) && formData == old(formData)
    {
      if res.Ok? {
        canchaToDelete := None;
        var c := StartLoad();
        FinishLoad(reload);
        lookup := Some(c);
      } else {
        lookup := None;
      }
    }
  }

  /** Opening a court for editing and saving it unchanged updates that court with its own
      fields; a new court starts from the empty form, which the gate refuses. */
  method EditRoundTrip(c: Cancha) returns (call: Option<Api.Call>, blank: Option<Api.Call>)
    ensures Truthy(c.numero) && Truthy(c.tipo) ==> call == Some(Api.CanchasUpdate(c.idCancha, FormObj(FormOf(c))))
    ensures !(Truthy(c.numero) && Truthy(c.tipo)) ==> call == None
    ensures blank == None
  {
    var p := new Page();
    p.OpenDialog(Some(c));
    call := p.StartSubmit();
    p.CloseDialog();
    p.OpenDialog(None);
    blank := p.StartSubmit();
  }
}
