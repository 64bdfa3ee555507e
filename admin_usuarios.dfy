/** The user administration page of `src/pages/AdminUsuarios.jsx`: the user list, the role and
    status buttons each user row offers, the confirmation dialog and the request each
    confirmed action sends. Each awaited service call is an input of the handler that awaits
    it. */
module AdminUsuarios {
  import opened Js
  import Api
  import Seqs

  const Admin: string := "admin"
  const Jugador: string := "jugador"

  datatype Usuario = Usuario(idUsuario: int, nombre: string, apellido: string, rol: string, activo: bool)

  datatype Action = Promote | Demote | Activate | Deactivate

  /** The role button of a row. */
  function RoleAction(u: Usuario): (a: Action)
    ensures a == Promote <==> u.rol == Jugador
    ensures a != Promote ==> a == Demote
  {
    if u.rol == Jugador then Promote else Demote
  }

  /** The status button of a row. */
  function StatusAction(u: Usuario): (a: Action)
    ensures a == Deactivate <==> u.activo
    ensures a != Deactivate ==> a == Activate
  {
    if u.activo then Deactivate else Activate
  }

  /** The request `handleConfirmAction` sends for an action on a user. */
  function ActionCall(a: Action, id: int): Api.Call {
    match a
    case Promote => Api.UsuariosUpdateRole(id, Admin)
    case Demote => Api.UsuariosUpdateRole(id, Jugador)
    case Activate => Api.UsuariosToggleActive(id, true)
    case Deactivate => Api.UsuariosToggleActive(id, false)
  }

  /** The role the request asks for, or the status, by action. */
  lemma ActionCallBodies(a: Action, id: int)
    ensures a == Promote ==> ActionCall(a, id).options.body == Some(map["rol" := Str(Admin)])
    ensures a == Demote ==> ActionCall(a, id).options.body == Some(map["rol" := Str(Jugador)])
    ensures a == Activate ==> ActionCall(a, id).options.body == Some(map["activo" := Bool(true)])
    ensures a == Deactivate ==> ActionCall(a, id).options.body == Some(map["activo" := Bool(false)])
    ensures ActionCall(a, id).options.verb == Some("PATCH")
  {
    Api.UserMutations(id, Admin, true);
    Api.UserMutations(id, Jugador, false);
  }

  /** Different actions on a user send different requests. */
  lemma ActionCallDistinct(a: Action, b: Action, id: int)
    requires a != b
    ensures ActionCall(a, id) != ActionCall(b, id)
  {
    ActionCallBodies(a, id);
    ActionCallBodies(b, id);
    var ba := ActionCall(a, id).options.body.value;
    var bb := ActionCall(b, id).options.body.value;
    if (a == Promote || a == Demote) == (b == Promote || b == Demote) {
      var k := if a == Promote || a == Demote then "rol" else "activo";
      assert ba[k] != bb[k];
    } else {
      assert ("rol" in ba) != ("rol" in bb);
    }
  }

  /** The buttons a row offers always ask for a change: a player is made administrator, anyone
      else a player, an active user is deactivated and an inactive one activated. */
  lemma OfferedActionsChange(u: Usuario)
    ensures ActionCall(RoleAction(u), u.idUsuario).options.body.value["rol"] != Str(u.rol)
    ensures ActionCall(RoleAction(u), u.idUsuario).options.body.value["rol"] == Str(if u.rol == Jugador then Admin else Jugador)
    ensures ActionCall(StatusAction(u), u.idUsuario).options.body.value["activo"] == Bool(!u.activo)
  {
    Api.UserMutations(u.idUsuario, Admin, !u.activo);
    Api.UserMutations(u.idUsuario, Jugador, !u.activo);
  }

  /** The dialog's title for an action. */
  function Title(a: Action): string {
    match a
    case Promote => "¿Promover a Administrador?"
    case Demote => "¿Degradar a Jugador?"
    case Activate => "¿Activar usuario?"
    case Deactivate => "¿Desactivar usuario?"
  }

  /** What each action will mean for the user, as the dialog says it. */
  function Consequence(a: Action): string {
    match a
    case Promote => "tendrá acceso completo al sistema y podrá gestionar canchas y usuarios."
    case Demote => "perderá los permisos de administrador y solo podrá hacer reservas."
    case Activate => "podrá iniciar sesión y usar el sistema."
    case Deactivate => "no podrá iniciar sesión hasta que sea reactivado."
  }

  /** The dialog's description: the user's full name and the consequence of the action. */
  function Description(a: Action, u: Usuario): string {
    u.nombre + " " + u.apellido + " " + Consequence(a)
  }

  /** `confirmDialog`. Its title and description are those of its action and user (see
      `DialogTitle` and `DialogDescription`); the handler that opens it is the only one that
      sets them, from the same user and action. */
  datatype Dialog = Dialog(open: bool, usuario: Option<Usuario>, action: Option<Action>)

  const ClosedDialog: Dialog := Dialog(false, None, None)

  /** The title the dialog shows: empty until an action is chosen. */
  function DialogTitle(d: Dialog): string {
    if d.action.Some? then Title(d.action.value) else ""
  }

  /** The description the dialog shows: empty until a user and an action are chosen. */
  function DialogDescription(d: Dialog): string {
    if d.action.Some? && d.usuario.Some? then Description(d.action.value, d.usuario.value) else ""
  }

  /** An opened dialog shows the action's title, and a description that starts with the
      user's full name and goes on with what the action will change. */
  lemma OpenedDialogTexts(u: Usuario, a: Action)
    ensures DialogTitle(Dialog(true, Some(u), Some(a))) == Title(a)
    ensures var t := DialogDescription(Dialog(true, Some(u), Some(a)));
      var name := u.nombre + " " + u.apellido + " ";
      |name| <= |t| && t[..|name|] == name && t[|name|..] == Consequence(a)
  {
    var name := u.nombre + " " + u.apellido + " ";
    var c := Consequence(a);
    var t := DialogDescription(Dialog(true, Some(u), Some(a)));
    assert t == name + c;
    assert (name + c)[..|name|] == name;
    assert (name + c)[|name|..] == c;
  }

  function IsAdminUser(u: Usuario): bool { u.rol == Admin }
  function IsPlayer(u: Usuario): bool { u.rol == Jugador }

  /** The administrator count of the statistics. */
  function Admins(us: seq<Usuario>): nat { |Seqs.Filter(us, IsAdminUser)| }

  /** The player count of the statistics. */
  function Players(us: seq<Usuario>): nat { |Seqs.Filter(us, IsPlayer)| }

  /** Each count is the number of users with that role, and together they never exceed the
      total. */
  lemma CountsBound(us: seq<Usuario>, u: Usuario)
    ensures Admins(us) + Players(us) <= |us|
    ensures multiset(Seqs.Filter(us, IsAdminUser))[u] == if u.rol == Admin then multiset(us)[u] else 0
    ensures multiset(Seqs.Filter(us, IsPlayer))[u] == if u.rol == Jugador then multiset(us)[u] else 0
  {
    Seqs.FilterDisjoint(us, IsAdminUser, IsPlayer);
    Seqs.FilterCount(us, IsAdminUser, u);
    Seqs.FilterCount(us, IsPlayer, u);
  }

  class Page {
    var usuarios: seq<Usuario>
    var loading: bool
    var confirmDialog: Dialog

    /** An open dialog is about a user and an action. */
    ghost predicate Valid()
      reads this
    {
      confirmDialog.action.Some? ==> confirmDialog.usuario.Some?
    }

    constructor()
      ensures Valid() && usuarios == [] && loading && confirmDialog == ClosedDialog
    {
      usuarios := [];
      loading := true;
      confirmDialog := ClosedDialog;
    }

    /** `loadUsuarios` up to its `await`. */
    method StartLoad() returns (call: Api.Call)
      modifies this
      ensures loading && call == Api.UsuariosGetAll()
      ensures usuarios == old(usuarios) && confirmDialog == old(confirmDialog)
    {
      loading := true;
      call := Api.UsuariosGetAll();
    }

    /** The rest of `loadUsuarios`: the list on success, a toast otherwise; `loading` ends. */
    method FinishLoad(res: Api.Fetched<seq<Usuario>>)
      modifies this
      ensures !loading && usuarios == (if res.Ok? then res.data else old(usuarios))
      ensures confirmDialog == old(confirmDialog)
    {
      if res.Ok? {
        usuarios := res.data;
      }
      loading := false;
    }

    /** `openConfirmDialog`: the open dialog holding exactly this user and action. */
    method OpenConfirmDialog(u: Usuario, a: Action)
      modifies this
      ensures Valid() && confirmDialog == Dialog(true, Some(u), Some(a))
      ensures usuarios == old(usuarios) && loading == old(loading)
    {
      confirmDialog := Dialog(true, Some(u), Some(a));
    }

    /** The dialog's `onOpenChange`: only the flag. */
    method SetOpen(open: bool)
      requires Valid()
      modifies this
      ensures Valid() && confirmDialog == old(confirmDialog).(open := open)
      ensures usuarios == old(usuarios) && loading == old(loading)
    {
      confirmDialog := confirmDialog.(open := open);
    }

    /** `handleConfirmAction` up to its first `await`: the request of the dialog's action for
        the dialog's user. Without an action the `switch` sends nothing and the handler goes
        straight on to reload the list and close the dialog, which is `FinishConfirm` with a
        successful reply; the page never reaches that case, since the dialog is only opened by
        `OpenConfirmDialog`, which always sets an action. */
    method StartConfirm() returns (call: Option<Api.Call>)
      requires Valid()
      ensures call.Some? <==> confirmDialog.action.Some?
      ensures call.Some? ==> call.value == ActionCall(confirmDialog.action.value, confirmDialog.usuario.value.idUsuario)
    {
      match confirmDialog.action
      case None => call := None;
      case Some(a) => call := Some(ActionCall(a, confirmDialog.usuario.value.idUsuario));
    }

    /** The rest of `handleConfirmAction`: on success the list is reloaded (`reload` is that
        response) and the dialog closed, keeping its user and action; on failure a toast and
        the dialog stays as it was. */
    method FinishConfirm(res: Api.Fetched<Obj>, reload: Api.Fetched<seq<Usuario>>) returns (lookup: Option<Api.Call>)
      requires Valid()
      modifies this
      ensures Valid()
      ensures lookup.Some? <==> res.Ok?
      ensures res.Ok? ==> lookup.value == Api.UsuariosGetAll() && !loading
                          && usuarios == (if reload.Ok? then reload.data else old(usuarios))
                          && confirmDialog == old(confirmDialog).(open := false)
      ensures res.Err? ==> usuarios == old(usuarios) && loading == old(loading) && confirmDialog == old(confirmDialog)
    {
      if res.Ok? {
        var c := StartLoad();
        FinishLoad(reload);
        confirmDialog := confirmDialog.(open := false);
        lookup := Some(c);
      } else {
        lookup := None;
      }
    }
  }

  /** Confirming a button of a row sends the request for that very user and action. */
  method ConfirmOffered(u: Usuario, role: bool) returns (call: Option<Api.Call>)
    ensures call == Some(ActionCall(if role then RoleAction(u) else StatusAction(u), u.idUsuario))
  {
    var p := new Page();
    p.OpenConfirmDialog(u, if role then RoleAction(u) else StatusAction(u));
    call := p.StartConfirm();
  }
}
