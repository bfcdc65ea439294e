/** The application user and the three role names the application knows. */
module Users {

  const AdminRole: string := "Администратор"
  const ManagerRole: string := "Менеджер"
  const ClientRole: string := "Авторизированный клиент"

  /** A signed-in user; a guest is represented by the absence of a user. */
  datatype User = User(id: int, role: string, fullName: string, login: string, password: string)
  {
    predicate IsAdmin() {
      role == AdminRole
    }

    predicate IsManager() {
      role == ManagerRole
    }

    predicate IsAuthorizedClient() {
      role == ClientRole
    }

    /** A `User` object is never a guest. */
    predicate IsGuest() {
      false
    }

    /** The user holds one of the three known roles. */
    predicate HasKnownRole() {
      IsAdmin() || IsManager() || IsAuthorizedClient()
    }
  }

  /** The three role names differ, so no user holds two roles. */
  lemma RolesExclusive(u: User)
    ensures !(u.IsAdmin() && u.IsManager())
    ensures !(u.IsAdmin() && u.IsAuthorizedClient())
    ensures !(u.IsManager() && u.IsAuthorizedClient())
    ensures !u.IsGuest()
  {
    assert AdminRole[0] != ManagerRole[0];
    assert AdminRole[1] != ClientRole[1];
    assert ManagerRole[0] != ClientRole[0];
  }
}
