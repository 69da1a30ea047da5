/**
 * The administrator's login page. There is no server round trip: the page
 * compares the form with the credentials saved in localStorage by the
 * profile settings page (when there are any) and opens an admin session
 * through the auth context. JSON parsing of the saved credentials is the
 * parameter `parse`, the clock reading that makes up the token is `now`.
 */
module AdminLogin {
  import opened Wrappers
  import opened Text
  import opened AuthContext

  /** The localStorage key of the saved credentials. */
  const CredentialsKey := "adminCredentials"

  const DefaultEmail := "admin@yango.com"
  const Mismatch := "Invalid credentials. Please check your email and password."
  const AccessFailed := "Access failed"
  const FirstAccess := "Admin access granted! Set up your credentials in Settings."

  /** The saved credentials. */
  datatype Credentials = Credentials(name: string, email: string, password: string)

  /** The account object handed to login. */
  function AdminUser(name: string, email: string): (u: Obj)
    ensures u.Keys == {"id", "name", "email", "role"}
    ensures u["id"] == Num(1) && u["role"] == Str("admin")
    ensures u["name"] == Str(name) && u["email"] == Str(email)
  {
    map["id" := Num(1), "name" := Str(name), "email" := Str(email), "role" := Str("admin")]
  }

  /** The token of a session opened at time `now`. */
  function AdminToken(now: nat): string {
    "admin-access-token-" + NatToString(now)
  }

  /** What a submit leads to: a session for this account with a greeting, or an error message. */
  datatype Outcome = Granted(user: Obj, greeting: string) | Refused(message: string)

  /**
   * handleSubmit's decision. Without saved credentials anyone gets in, under
   * the typed email or the default one. With saved credentials, a form left
   * entirely blank gets in as the saved account; any other form must match
   * the saved email and password exactly. Saved credentials that do not
   * parse end in the catch branch.
   */
  function Decide(stored: Option<string>, parse: string -> Option<Credentials>,
                  email: string, password: string): (o: Outcome)
    ensures !Truthy(stored) ==> o == Granted(AdminUser("Admin", if email == "" then DefaultEmail else email), FirstAccess)
    ensures Truthy(stored) && parse(stored.value).None? ==> o == Refused(AccessFailed)
    ensures Truthy(stored) && parse(stored.value).Some? ==>
      var c := parse(stored.value).value;
      && (o.Granted? <==> (email == "" && password == "") || (email == c.email && password == c.password))
      && (o.Granted? ==> o.user == AdminUser(c.name, c.email))
      && (o.Refused? ==> o.message == Mismatch)
    ensures o.Granted? ==> o.user["id"] == Num(1) && o.user["role"] == Str("admin")
  {
    if Truthy(stored) then
      match parse(stored.value)
      case None => Refused(AccessFailed)
      case Some(c) =>
        if (email != "" || password != "") && (email != c.email || password != c.password) then Refused(Mismatch)
        else Granted(AdminUser(c.name, c.email), "Welcome back, " + c.name + "!")
    else Granted(AdminUser("Admin", if email == "" then DefaultEmail else email), FirstAccess)
  }

  /** Once credentials are saved, a filled-in form with the wrong password never gets in, whatever the email. */
  lemma WrongPasswordRefused(stored: string, parse: string -> Option<Credentials>, email: string, password: string)
    requires stored != "" && parse(stored).Some?
    requires password != "" && password != parse(stored).value.password
    ensures Decide(Some(stored), parse, email, password) == Refused(Mismatch)
  {
  }

  /** Once credentials are saved, the blank form still opens the saved account: the check is skipped, not failed. */
  lemma BlankFormAdmitted(stored: string, parse: string -> Option<Credentials>)
    requires stored != "" && parse(stored).Some?
    ensures var c := parse(stored).value;
      Decide(Some(stored), parse, "", "").Granted? && Decide(Some(stored), parse, "", "").user == AdminUser(c.name, c.email)
  {
  }

  /** Opening a session never touches the saved credentials. */
  lemma SessionKeepsCredentials(items: map<string, string>, user: Obj, token: Option<string>, kind: string,
                                stringify: Obj -> string)
    ensures Get(WriteSession(items, user, token, kind, stringify), CredentialsKey) == Get(items, CredentialsKey)
  {
  }

  /** The page's own state. */
  class LoginPage {
    var email: string
    var password: string
    var loading: bool

    constructor ()
      ensures email == "" && password == "" && !loading
    {
      email, password, loading := "", "", false;
    }

    /** handleChange for the two fields; any other field name is ignored. */
    method HandleChange(field: string, value: string)
      modifies this
      ensures field == "email" ==> email == value && password == old(password)
      ensures field == "password" ==> password == value && email == old(email)
      ensures field != "email" && field != "password" ==> email == old(email) && password == old(password)
      ensures loading == old(loading)
    {
      if field == "email" {
        email := value;
      } else if field == "password" {
        password := value;
      }
    }

    /**
     * handleSubmit: read the saved credentials, decide, and on success log
     * in as admin with a fresh token; on refusal the session and storage
     * are left alone. The page ends not loading either way.
     */
    method HandleSubmit(auth: AuthProvider, parse: string -> Option<Credentials>, stringify: Obj -> string, now: nat)
        returns (o: Outcome)
      modifies this, auth, auth.storage
      ensures o == Decide(old(auth.storage.GetItem(CredentialsKey)), parse, email, password)
      ensures o.Granted? ==>
        && auth.user == Some(o.user) && auth.token == Some(AdminToken(now)) && auth.userType == Some("admin")
        && auth.storage.items == WriteSession(old(auth.storage.items), o.user, Some(AdminToken(now)), "admin", stringify)
      ensures o.Refused? ==> unchanged(auth) && unchanged(auth.storage)
      ensures email == old(email) && password == old(password) && !loading
    {
      loading := true;
      var stored := auth.storage.GetItem(CredentialsKey);
      o := Decide(stored, parse, email, password);
      if o.Granted? {
        auth.Login(o.user, Some(AdminToken(now)), "admin", stringify);
      }
      loading := false;
    }
  }
}
