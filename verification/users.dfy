/** The user record shared by the admin panel and both backends, and the
    fixed identities and role names they compare against. */
module Users {

  /** A row of the `users` table as the backends return it. */
  datatype User = User(id: nat, steamId: string, username: string, avatarUrl: string, role: string)

  /** The one Steam account that is always an administrator and alone may manage users. */
  const SuperAdminSteamId: string := "76561198995407853"

  const EditorRole: string := "editor"
  const ModeratorRole: string := "moderator"
  const AdministratorRole: string := "administrator"
  const NoAccessRole: string := "no_access"
}
