/**
 * The client's session store: three state fields (user, token, userType)
 * mirrored to the browser's localStorage. JSON serialisation is the pair of
 * parameters `stringify` / `parse`; `parse` answers None where `JSON.parse`
 * throws.
 */
module AuthContext {
  import opened Wrappers

  /** A field of a JSON object the client keeps: a string or a number. */
  datatype Value = Str(s: string) | Num(n: int)

  /** A JSON object such as the logged-in account. */
  type Obj = map<string, Value>

  const TokenKey := "token"
  const UserKey := "user"
  const TypeKey := "userType"

  /** The browser's localStorage: string values under string keys. */
  class LocalStorage {
    var items: map<string, string>

    constructor (items: map<string, string>)
      ensures this.items == items
    {
      this.items := items;
    }

    /** `getItem`: null for an absent key. */
    function GetItem(key: string): Option<string>
      reads this
    {
      if key in items then Some(items[key]) else None
    }
  }

  /** JavaScript truthiness of a value read from storage: present and not ''. */
  predicate Truthy(v: Option<string>) {
    v.Some? && v.value != ""
  }

  /** `setItem('token', authToken)` stores a null token as the text "null". */
  function TokenText(authToken: Option<string>): string {
    if authToken.Some? then authToken.value else "null"
  }

  /** The storage after login's three `setItem` calls. */
  function WriteSession(items: map<string, string>, userData: Obj, authToken: Option<string>, kind: string,
                        stringify: Obj -> string): (r: map<string, string>)
    ensures r.Keys == items.Keys + {TokenKey, UserKey, TypeKey}
    ensures r[TokenKey] == TokenText(authToken) && r[UserKey] == stringify(userData) && r[TypeKey] == kind
    ensures forall k :: k in items && k !in {TokenKey, UserKey, TypeKey} ==> r[k] == items[k]
  {
    items[TokenKey := TokenText(authToken)][UserKey := stringify(userData)][TypeKey := kind]
  }

  /** The storage after logout's three `removeItem` calls. */
  function ClearSession(items: map<string, string>): (r: map<string, string>)
    ensures r.Keys == items.Keys - {TokenKey, UserKey, TypeKey}
    ensures forall k :: k in r ==> r[k] == items[k]
  {
    items - {TokenKey, UserKey, TypeKey}
  }

  /** The session fields of the provider. */
  datatype Session = Session(user: Option<Obj>, token: Option<string>, userType: Option<string>)

  /**
   * The mount-time restore: with a truthy token and a truthy user entry, the
   * token is taken over, then the parsed user and the stored type (null
   * when absent). When the user entry does not parse, the effect stops after
   * the token.
   */
  function Restored(items: map<string, string>, parse: string -> Option<Obj>, current: Session): (s: Session)
    ensures !(Truthy(Get(items, TokenKey)) && Truthy(Get(items, UserKey))) ==> s == current
    ensures Truthy(Get(items, TokenKey)) && Truthy(Get(items, UserKey)) ==> s.token == Some(items[TokenKey])
    ensures Truthy(Get(items, TokenKey)) && Truthy(Get(items, UserKey)) && parse(items[UserKey]).Some? ==>
      s == Session(parse(items[UserKey]), Some(items[TokenKey]), Get(items, TypeKey))
  {
    if Truthy(Get(items, TokenKey)) && Truthy(Get(items, UserKey)) then
      match parse(items[UserKey])
      case Some(u) => Session(Some(u), Some(items[TokenKey]), Get(items, TypeKey))
      case None => current.(token := Some(items[TokenKey]))
    else current
  }

  function Get(items: map<string, string>, key: string): Option<string> {
    if key in items then Some(items[key]) else None
  }

  /** After login then logout, storage holds no session entry and every other entry is as before. */
  lemma LogoutUndoesLogin(items: map<string, string>, userData: Obj, authToken: Option<string>, kind: string,
                          stringify: Obj -> string)
    ensures ClearSession(WriteSession(items, userData, authToken, kind, stringify)) == ClearSession(items)
  {
  }

  /**
   * A session written by login is restored as written on the next mount,
   * provided `parse` inverts `stringify` and the stored texts are non-empty.
   */
  lemma RestoreAfterLogin(items: map<string, string>, userData: Obj, authToken: Option<string>, kind: string,
                          stringify: Obj -> string, parse: string -> Option<Obj>, current: Session)
    requires parse(stringify(userData)) == Some(userData) && stringify(userData) != ""
    requires authToken != Some("")
    ensures Restored(WriteSession(items, userData, authToken, kind, stringify), parse, current)
      == Session(Some(userData), Some(TokenText(authToken)), Some(kind))
  {
  }

  /** AuthProvider: the three session fields and the storage they are mirrored to. */
  class AuthProvider {
    const storage: LocalStorage
    var user: Option<Obj>
    var token: Option<string>
    var userType: Option<string>

    /** The provider as first rendered: no session. */
    constructor (storage: LocalStorage)
      ensures this.storage == storage
      ensures user.None? && token.None? && userType.None?
    {
      this.storage := storage;
      user, token, userType := None, None, None;
    }

    function Current(): Session
      reads this
    {
      Session(user, token, userType)
    }

    /** The mount effect: take over a stored session when both token and user are stored. */
    method Restore(parse: string -> Option<Obj>)
      modifies this
      ensures Current() == Restored(storage.items, parse, old(Current()))
    {
      var storedToken := storage.GetItem(TokenKey);
      var storedUser := storage.GetItem(UserKey);
      var storedType := storage.GetItem(TypeKey);
      if Truthy(storedToken) && Truthy(storedUser) {
        token := storedToken;
        var parsed := parse(storedUser.value);
        if parsed.Some? {
          user := parsed;
          userType := storedType;
        }
      }
    }

    /** login: set the three fields and write them to storage. */
    method Login(userData: Obj, authToken: Option<string>, kind: string, stringify: Obj -> string)
      modifies this, storage
      ensures user == Some(userData) && token == authToken && userType == Some(kind)
      ensures storage.items == WriteSession(old(storage.items), userData, authToken, kind, stringify)
    {
      user := Some(userData);
      token := authToken;
      userType := Some(kind);
      storage.items := storage.items[TokenKey := TokenText(authToken)];
      storage.items := storage.items[UserKey := stringify(userData)];
      storage.items := storage.items[TypeKey := kind];
    }

    /** logout: clear the three fields and remove exactly their three storage keys. */
    method Logout()
      modifies this, storage
      ensures user.None? && token.None? && userType.None?
      ensures storage.items == ClearSession(old(storage.items))
    {
      user, token, userType := None, None, None;
      storage.items := storage.items - {TokenKey};
      storage.items := storage.items - {UserKey};
      storage.items := storage.items - {TypeKey};
    }
  }

  /** What `useAuth` does: return the context, or throw outside the provider. */
  datatype Hook<C> = Context(value: C) | Thrown(message: string)

  /** useAuth: the provider's value, or an error when there is no provider above the caller. */
  function UseAuth<C>(context: Option<C>): (h: Hook<C>)
    ensures context.None? <==> h.Thrown?
    ensures h.Thrown? ==> h.message == "useAuth must be used within AuthProvider"
    ensures h.Context? ==> h.value == context.value
  {
    match context
    case None => Thrown("useAuth must be used within AuthProvider")
    case Some(c) => Context(c)
  }
}
