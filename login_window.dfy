/** `LoginWindow`: the guest entry and the sign-in with a login and a password. */
module LoginWindows {
  import opened Wrappers
  import opened Text
  import opened Users
  import opened Tables
  import opened MainWindows

  /** What a click on a sign-in button ends in; `OpenMain` opens the main window for that user (`None` for a guest). */
  datatype LoginOutcome = MissingCredentials | WrongCredentials | NoAccess | OpenMain(user: Option<User>)

  /** `GuestLoginButton_Click`: the main window opens without a user. */
  function GuestLogin(): (r: LoginOutcome)
    ensures r.OpenMain? && r.user.None?
  {
    OpenMain(None)
  }

  /**
   * `ManagerLoginButton_Click`: the login box is trimmed, the password is
   * taken as typed; both must be non-empty; then `Authenticate` must find
   * the user, and the user must hold one of the three roles.
   */
  function ManagerLogin(users: seq<UserRow>, loginText: string, password: string): (r: LoginOutcome)
    ensures r == MissingCredentials <==> IsBlank(loginText) || password == ""
    ensures r == WrongCredentials <==>
      !IsBlank(loginText) && password != "" && Authenticate(users, Trim(loginText), password).None?
    ensures r.OpenMain? ==>
      r.user.Some? && r.user == Authenticate(users, Trim(loginText), password) && r.user.value.HasKnownRole()
  {
    BlankIffTrimmedEmpty(loginText);
    var login := Trim(loginText);
    if login == "" || password == "" then MissingCredentials
    else
      var user := Authenticate(users, login, password);
      if user.Some? then
        if user.value.IsAdmin() || user.value.IsManager() || user.value.IsAuthorizedClient() then OpenMain(user)
        else NoAccess
      else WrongCredentials
  }

  /**
   * Roles are normalised when the user is read, so "no access" never
   * happens: with credentials that match, the main window opens.
   */
  lemma {:induction false} NoAccessUnreachable(users: seq<UserRow>, loginText: string, password: string)
    ensures ManagerLogin(users, loginText, password) != NoAccess
    ensures !IsBlank(loginText) && password != "" && Authenticate(users, Trim(loginText), password).Some? ==>
      ManagerLogin(users, loginText, password) == OpenMain(Authenticate(users, Trim(loginText), password))
  {
    BlankIffTrimmedEmpty(loginText);
    if Authenticate(users, Trim(loginText), password).Some? {
      AuthenticatedRoleKnown(users, Trim(loginText), password);
    }
  }

  /** Whoever signs in gets the booking button on every card; only staff get the management panel. */
  lemma SignedInUserCanBook(users: seq<UserRow>, loginText: string, password: string)
    requires ManagerLogin(users, loginText, password).OpenMain?
    ensures TourCardButtons(ManagerLogin(users, loginText, password).user).book
    ensures var u := ManagerLogin(users, loginText, password).user.value;
      MainPanels(Some(u)).managerPanel <==> u.IsManager() || u.IsAdmin()
  {
  }

  /** A guest sees neither the booking button nor the management panel. */
  lemma GuestSeesNoControls()
    ensures !TourCardButtons(GuestLogin().user).book && !MainPanels(GuestLogin().user).managerPanel
  {
  }
}
