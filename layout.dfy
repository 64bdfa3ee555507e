/** The navigation frame of `src/components/Layout.jsx`: the role-dependent menu, the
    highlighted item, the mobile menu flag and the sign-out button. The router's location is
    the `pathname` field; `navigate(p)` assigns it. */
module Layout {
  import opened Js
  import Auth

  datatype MenuItem = MenuItem(caption: string, path: string)

  const BaseMenu: seq<MenuItem> := [
    MenuItem("Dashboard", "/dashboard"),
    MenuItem("Nueva Reserva", "/reservas"),
    MenuItem("Reservas fijas", "/reservas-recurrentes"),
    MenuItem("Mis Reservas", "/mis-reservas")
  ]

  const AdminMenu: seq<MenuItem> := [
    MenuItem("Gestionar Canchas", "/admin/canchas"),
    MenuItem("Gestionar Usuarios", "/admin/usuarios"),
    MenuItem("Gestionar Reservas", "/admin/reservas")
  ]

  /** `user?.rol === 'admin'`. */
  predicate IsAdmin(user: Option<Obj>) {
    user.Some? && "rol" in user.value && user.value["rol"] == Str("admin")
  }

  /** `menuItems`: the base items, followed by the administration items for an administrator. */
  function MenuItems(user: Option<Obj>): (m: seq<MenuItem>)
    ensures IsAdmin(user) ==> |m| == 7 && m[..4] == BaseMenu && m[4..] == AdminMenu
    ensures !IsAdmin(user) ==> m == BaseMenu
  {
    if IsAdmin(user) then BaseMenu + AdminMenu else BaseMenu
  }

  /** Whether an item is drawn highlighted at location `pathname`. */
  predicate Highlighted(pathname: string, item: MenuItem) {
    pathname == item.path
  }

  /** No two items of a menu share a path. */
  lemma MenuPathsDistinct(user: Option<Obj>, i: nat, j: nat)
    requires i < j < |MenuItems(user)|
    ensures MenuItems(user)[i].path != MenuItems(user)[j].path
  {
    var m := MenuItems(user);
    assert m[i].path[1] != m[j].path[1] || m[i].path[2] != m[j].path[2] || |m[i].path| != |m[j].path|
           || m[i].path[7] != m[j].path[7];
  }

  /** At most one item is highlighted: the one whose path is the location, if it is in the menu. */
  lemma OneHighlighted(user: Option<Obj>, pathname: string, i: nat, j: nat)
    requires i < |MenuItems(user)| && j < |MenuItems(user)|
    requires Highlighted(pathname, MenuItems(user)[i]) && Highlighted(pathname, MenuItems(user)[j])
    ensures i == j
  {
    if i < j {
      MenuPathsDistinct(user, i, j);
    } else if j < i {
      MenuPathsDistinct(user, j, i);
    }
  }

  class Frame {
    /** The current location. */
    var pathname: string
    var mobileMenuOpen: bool

    constructor(location: string)
      ensures pathname == location && !mobileMenuOpen
    {
      pathname := location;
      mobileMenuOpen := false;
    }

    /** The menu button of the mobile header. */
    method ToggleMenu()
      modifies this
      ensures mobileMenuOpen == !old(mobileMenuOpen) && pathname == old(pathname)
    {
      mobileMenuOpen := !mobileMenuOpen;
    }

    /** An item of the desktop sidebar: navigates to its path. */
    method PickDesktop(user: Option<Obj>, k: nat)
      requires k < |MenuItems(user)|
      modifies this
      ensures pathname == MenuItems(user)[k].path && mobileMenuOpen == old(mobileMenuOpen)
      ensures Highlighted(pathname, MenuItems(user)[k])
    {
      pathname := MenuItems(user)[k].path;
    }

    /** An item of the mobile sidebar: navigates to its path and closes the menu. */
    method PickMobile(user: Option<Obj>, k: nat)
      requires k < |MenuItems(user)|
      modifies this
      ensures pathname == MenuItems(user)[k].path && !mobileMenuOpen
      ensures Highlighted(pathname, MenuItems(user)[k])
    {
      pathname := MenuItems(user)[k].path;
      mobileMenuOpen := false;
    }

    /** The dark overlay behind the open mobile menu. */
    method CloseOverlay()
      modifies this
      ensures !mobileMenuOpen && pathname == old(pathname)
    {
      mobileMenuOpen := false;
    }

    /** `handleLogout`: signs out, then goes to the login page. */
    method HandleLogout(auth: Auth.Provider)
      requires auth.Valid()
      modifies this, auth
      ensures auth.Valid() && auth.user == None && auth.storage == Auth.Cleared(old(auth.storage))
      ensures auth.loading == old(auth.loading)
      ensures pathname == "/login" && mobileMenuOpen == old(mobileMenuOpen)
    {
      auth.Logout();
      pathname := "/login";
    }
  }
}
