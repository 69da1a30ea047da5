/**
 * The administrator's profile settings form: it checks a new password,
 * saves name, email and password to localStorage as the credentials the
 * login page compares against, and refreshes the session through the auth
 * context. JSON serialisation of the credentials is the parameter
 * `saveText`; the login page reads them back with `parse`.
 */
module AdminProfileSettings {
  import opened Wrappers
  import opened AuthContext
  import opened AdminLogin

  const DefaultName := "Admin"
  const DefaultPassword := "admin123"
  const NoMatch := "New passwords do not match"
  const TooShort := "Password must be at least 6 characters"

  /** `user.<key> || fallback` for a text field of the session user. */
  function TextOr(u: Obj, key: string, fallback: string): (s: string)
    ensures key in u && u[key].Str? && u[key].s != "" ==> s == u[key].s
    ensures !(key in u && u[key].Str? && u[key].s != "") ==> s == fallback
  {
    if key in u && u[key].Str? && u[key].s != "" then u[key].s else fallback
  }

  /**
   * The password check of handleSubmit: an empty new password passes; a
   * non-empty one must equal its confirmation and have at least 6
   * characters, the mismatch being reported first.
   */
  function Check(newPassword: string, confirmPassword: string): (err: Option<string>)
    ensures err.None? <==> newPassword == "" || (newPassword == confirmPassword && |newPassword| >= 6)
    ensures err == Some(NoMatch) <==> newPassword != "" && newPassword != confirmPassword
    ensures err == Some(TooShort) <==> newPassword != "" && newPassword == confirmPassword && |newPassword| < 6
  {
    if newPassword != "" && newPassword != confirmPassword then Some(NoMatch)
    else if newPassword != "" && |newPassword| < 6 then Some(TooShort)
    else None
  }

  /** The credentials saved for the form: an empty new password saves the default one. */
  function Saved(name: string, email: string, newPassword: string): (c: Credentials)
    ensures c.name == name && c.email == email
    ensures newPassword != "" ==> c.password == newPassword
    ensures newPassword == "" ==> c.password == DefaultPassword
  {
    Credentials(name, email, if newPassword == "" then DefaultPassword else newPassword)
  }

  /** Every password that passes the check is saved with at least 6 characters. */
  lemma SavedPasswordLength(name: string, email: string, newPassword: string, confirmPassword: string)
    requires Check(newPassword, confirmPassword).None?
    ensures |Saved(name, email, newPassword).password| >= 6
  {
    if newPassword == "" {
      assert Saved(name, email, newPassword).password == DefaultPassword;
    }
  }

  /** `{ ...user, name, email }`: the session user with the form's name and email; a missing user spreads to nothing. */
  function UpdatedUser(user: Option<Obj>, name: string, email: string): (u: Obj)
    ensures "name" in u && "email" in u && u["name"] == Str(name) && u["email"] == Str(email)
    ensures user.Some? ==> u.Keys == user.value.Keys + {"name", "email"}
    ensures user.None? ==> u.Keys == {"name", "email"}
    ensures user.Some? ==> forall k :: k in user.value && k != "name" && k != "email" ==> u[k] == user.value[k]
  {
    (if user.Some? then user.value else map[])["name" := Str(name)]["email" := Str(email)]
  }

  /**
   * Saved credentials admit their own email and password at the login
   * page, opening a session for the saved name and email, provided `parse`
   * reads back what `saveText` wrote.
   */
  lemma SavedCredentialsAdmitted(c: Credentials, saveText: Credentials -> string,
                                 parse: string -> Option<Credentials>)
    requires parse(saveText(c)) == Some(c) && saveText(c) != ""
    ensures Decide(Some(saveText(c)), parse, c.email, c.password) == Granted(AdminUser(c.name, c.email), "Welcome back, " + c.name + "!")
  {
  }

  /** After a password change, the previous password typed at the login page is refused. */
  lemma OldPasswordRefused(c: Credentials, saveText: Credentials -> string,
                           parse: string -> Option<Credentials>, email: string, oldPassword: string)
    requires parse(saveText(c)) == Some(c) && saveText(c) != ""
    requires oldPassword != "" && oldPassword != c.password
    ensures Decide(Some(saveText(c)), parse, email, oldPassword) == Refused(Mismatch)
  {
    WrongPasswordRefused(saveText(c), parse, email, oldPassword);
  }

  /** The form's own state. */
  class ProfileForm {
    var name: string
    var email: string
    var currentPassword: string
    var newPassword: string
    var confirmPassword: string
    var loading: bool

    constructor ()
      ensures name == "" && email == "" && currentPassword == "" && newPassword == "" && confirmPassword == ""
      ensures !loading
    {
      name, email, currentPassword, newPassword, confirmPassword := "", "", "", "", "";
      loading := false;
    }

    /** The effect on the session user: fill name and email from it, with defaults; the password fields stay. */
    method SyncFromUser(user: Option<Obj>)
      modifies this
      ensures user.Some? ==> name == TextOr(user.value, "name", DefaultName) && email == TextOr(user.value, "email", DefaultEmail)
      ensures user.None? ==> name == old(name) && email == old(email)
      ensures currentPassword == old(currentPassword) && newPassword == old(newPassword)
      ensures confirmPassword == old(confirmPassword) && loading == old(loading)
    {
      if user.Some? {
        name := TextOr(user.value, "name", DefaultName);
        email := TextOr(user.value, "email", DefaultEmail);
      }
    }

    /**
     * handleSubmit: a password that fails the check changes nothing but the
     * message. Otherwise the credentials are saved, the session user takes
     * the new name and email under the stored token with type admin, and
     * the three password fields are cleared.
     */
    method HandleSubmit(auth: AuthProvider, saveText: Credentials -> string, stringify: Obj -> string)
        returns (err: Option<string>)
      modifies this, auth, auth.storage
      ensures err == Check(old(newPassword), old(confirmPassword))
      ensures err.Some? ==> unchanged(auth) && unchanged(auth.storage)
      ensures err.Some? ==>
        (currentPassword, newPassword, confirmPassword) == old((currentPassword, newPassword, confirmPassword))
      ensures err.None? ==>
        var saved := Saved(old(name), old(email), old(newPassword));
        var updated := UpdatedUser(old(auth.user), old(name), old(email));
        var token := Get(old(auth.storage.items), TokenKey);
        && auth.storage.items == WriteSession(old(auth.storage.items)[CredentialsKey := saveText(saved)], updated, token, "admin", stringify)
        && auth.user == Some(updated) && auth.token == token && auth.userType == Some("admin")
        && currentPassword == "" && newPassword == "" && confirmPassword == ""
      ensures err.None? ==> auth.storage.GetItem(CredentialsKey) == Some(saveText(Saved(old(name), old(email), old(newPassword))))
      ensures name == old(name) && email == old(email) && !loading
    {
      loading := true;
      err := Check(newPassword, confirmPassword);
      if err.Some? {
        loading := false;
        return;
      }
      var saved := Saved(name, email, newPassword);
      auth.storage.items := auth.storage.items[CredentialsKey := saveText(saved)];
      var updated := UpdatedUser(auth.user, name, email);
      var token := auth.storage.GetItem(TokenKey);
      auth.Login(updated, token, "admin", stringify);
      currentPassword, newPassword, confirmPassword := "", "", "";
      loading := false;
    }
  }
}
