/** The admin panel's access decisions: the blocking screen for `no_access`
    users, and the permission flags that decide which actions and tabs the
    panel offers. */
module AdminPanel {
  import opened Text
  import opened Users

  datatype Permissions = Permissions(canEdit: bool, canDelete: bool, isAdmin: bool, isSuperAdmin: bool)

  const EditingRoles: seq<string> := [EditorRole, ModeratorRole, AdministratorRole]
  const DeletingRoles: seq<string> := [ModeratorRole, AdministratorRole]

  /** The flags of a user past the gate. */
  function PermissionsOf(u: User): (p: Permissions)
    ensures p.isAdmin ==> p.canDelete
    ensures p.canDelete ==> p.canEdit
  {
    Permissions(u.role in EditingRoles, u.role in DeletingRoles,
                u.role == AdministratorRole, u.steamId == SuperAdminSteamId)
  }

  /** The flags by role name: editors edit; moderators also delete;
      administrators also manage categories; any other role string gets
      none of the three. */
  lemma PermissionsByRole(u: User)
    ensures u.role == EditorRole ==> PermissionsOf(u).canEdit && !PermissionsOf(u).canDelete
    ensures u.role == ModeratorRole ==> PermissionsOf(u).canDelete && !PermissionsOf(u).isAdmin
    ensures u.role == AdministratorRole ==> PermissionsOf(u).isAdmin
    ensures u.role !in {EditorRole, ModeratorRole, AdministratorRole} ==> !PermissionsOf(u).canEdit
  {
  }

  /** Super-admin status depends on the Steam id alone, never on the role. */
  lemma SuperAdminIgnoresRole(u: User, v: User)
    requires u.steamId == v.steamId
    ensures PermissionsOf(u).isSuperAdmin == PermissionsOf(v).isSuperAdmin
  {
  }

  datatype Tab = ArticlesTab | CategoriesTab | UsersTab

  /** The tab strip: articles always, categories for administrators, users
      for the super admin. */
  function VisibleTabs(p: Permissions): (tabs: seq<Tab>)
    ensures |tabs| >= 1 && tabs[0] == ArticlesTab
    ensures CategoriesTab in tabs <==> p.isAdmin
    ensures UsersTab in tabs <==> p.isSuperAdmin
  {
    [ArticlesTab] + (if p.isAdmin then [CategoriesTab] else []) + (if p.isSuperAdmin then [UsersTab] else [])
  }

  /** What the panel renders: nothing before a user is loaded, the blocking
      screen (showing the user's Steam id) for `no_access`, else the panel. */
  datatype Screen = Blank | AccessDenied(steamId: string) | Panel(perms: Permissions, tabs: seq<Tab>)

  function PanelScreen(current: Option<User>): (s: Screen)
    ensures current.None? <==> s == Blank
    ensures s.AccessDenied? <==> current.Some? && current.value.role == NoAccessRole
    ensures s.AccessDenied? ==> s.steamId == current.value.steamId
    ensures s.Panel? ==> s.perms == PermissionsOf(current.value) && s.tabs == VisibleTabs(s.perms)
  {
    match current
    case None => Blank
    case Some(u) =>
      if u.role == NoAccessRole then AccessDenied(u.steamId)
      else
        var p := PermissionsOf(u);
        Panel(p, VisibleTabs(p))
  }

  /** The gate is checked before any flag: a `no_access` user is blocked
      even when the Steam id is the super admin's. */
  lemma NoAccessBlocksEveryone(u: User)
    requires u.role == NoAccessRole
    ensures PanelScreen(Some(u)) == AccessDenied(u.steamId)
  {
  }
}
