/** `AuthProvider` (src/contexts/AuthContext.tsx:15-138): the session record
    `authState`, replaced wholesale by every transition, and the two persisted
    keys "token" and "user". `localStorage` is a map; `JSON.parse` and
    `JSON.stringify` are passed in as functions (parse gives `None` where the
    real one throws); `Date.now()` is passed in as the text it renders to. */
module Session {
  import opened Wrappers
  import opened Types

  /** src/types/index.ts:9-14 */
  datatype AuthState = AuthState(user: Option<User>, token: Option<string>, isAuthenticated: bool, isLoading: bool)

  /** The state before the restore effect has run. */
  const Initial := AuthState(None, None, false, true)

  /** No session, nothing pending. */
  const Anonymous := AuthState(None, None, false, false)

  const TokenKey := "token"
  const UserKey := "user"

  /** `email.split('@')[0]`: everything before the first '@', or all of it. */
  function LocalPart(email: string): (r: string)
    ensures r <= email
    ensures '@' !in r
    ensures |r| < |email| ==> email[|r|] == '@'
  {
    if |email| == 0 || email[0] == '@' then "" else [email[0]] + LocalPart(email[1..])
  }

  lemma LocalPartSamples()
    ensures LocalPart("a@b.com") == "a"
    ensures LocalPart("alice") == "alice"
    ensures LocalPart("@x") == ""
  {
  }

  /** `localStorage.getItem(key)` is truthy: present and not the empty string. */
  predicate Holds(storage: map<string, string>, key: string) {
    key in storage && storage[key] != ""
  }

  /** The state the restore effect leaves (lines 25-46). Its failure branches
      spread the state captured on mount, which is `Initial`. */
  function Restored(storage: map<string, string>, parse: string -> Option<User>): (s: AuthState)
    ensures !s.isLoading
    ensures s.isAuthenticated <==>
      Holds(storage, TokenKey) && Holds(storage, UserKey) && parse(storage[UserKey]).Some?
    ensures s.isAuthenticated ==> s.user == parse(storage[UserKey]) && s.token == Some(storage[TokenKey])
    ensures !s.isAuthenticated ==> s == Anonymous
  {
    if Holds(storage, TokenKey) && Holds(storage, UserKey) then
      match parse(storage[UserKey])
      case Some(u) => AuthState(Some(u), Some(storage[TokenKey]), true, false)
      case None => Initial.(isLoading := false)
    else Initial.(isLoading := false)
  }

  /** The user `login` synthesises: `{ id: 'user-' + Date.now(), email, name: email.split('@')[0] }`. */
  function LoginUser(email: string, idStamp: string): User {
    User("user-" + idStamp, email, Some(LocalPart(email)))
  }

  /** The user `signup` synthesises; `name` is taken as given. */
  function SignupUser(email: string, name: string, idStamp: string): User {
    User("user-" + idStamp, email, Some(name))
  }

  /** `mock-jwt-token-${Date.now()}`: never empty, so a later restore accepts it. */
  function MockToken(tokenStamp: string): (r: string)
    ensures r != ""
  {
    "mock-jwt-token-" + tokenStamp
  }

  /** The signed-in state both `login` and `signup` set. */
  function SignedIn(u: User, token: string): AuthState {
    AuthState(Some(u), Some(token), true, false)
  }

  /** `setItem('token', token); setItem('user', userJson)`. */
  function Persist(storage: map<string, string>, token: string, userJson: string): map<string, string> {
    storage[TokenKey := token][UserKey := userJson]
  }

  /** `removeItem('token'); removeItem('user')`. */
  function Cleared(storage: map<string, string>): map<string, string> {
    storage - {TokenKey, UserKey}
  }

  /** A restore over what `login` persisted brings back the same session,
      provided parsing undoes serialising and a serialised user is not empty. */
  lemma PersistThenRestore(storage: map<string, string>, u: User, tokenStamp: string,
                           serialize: User -> string, parse: string -> Option<User>)
    requires parse(serialize(u)) == Some(u)
    requires serialize(u) != ""
    ensures Restored(Persist(storage, MockToken(tokenStamp), serialize(u)), parse)
            == SignedIn(u, MockToken(tokenStamp))
  {
    var s := Persist(storage, MockToken(tokenStamp), serialize(u));
    assert s[TokenKey] == MockToken(tokenStamp);
    assert |MockToken(tokenStamp)| >= |"mock-jwt-token-"|;
    assert s[UserKey] == serialize(u);
  }

  /** After `logout` the keys are gone, so a restore gives the anonymous session;
      clearing twice is clearing once. */
  lemma ClearedThenRestore(storage: map<string, string>, parse: string -> Option<User>)
    ensures TokenKey !in Cleared(storage) && UserKey !in Cleared(storage)
    ensures forall k :: k in storage && k != TokenKey && k != UserKey ==> k in Cleared(storage) && Cleared(storage)[k] == storage[k]
    ensures Restored(Cleared(storage), parse) == Anonymous
    ensures Cleared(Cleared(storage)) == Cleared(storage)
  {
  }

  class AuthProvider {
    var authState: AuthState
    var storage: map<string, string>

    /** A fresh provider over whatever storage survived from before. */
    constructor (persisted: map<string, string>)
      ensures authState == Initial && storage == persisted
    {
      authState := Initial;
      storage := persisted;
    }

    /** The mount effect: reads the two keys, never writes them. */
    method Restore(parse: string -> Option<User>)
      modifies this
      ensures authState == Restored(old(storage), parse)
      ensures storage == old(storage)
    {
      var token := if TokenKey in storage then Some(storage[TokenKey]) else None;
      var userData := if UserKey in storage then Some(storage[UserKey]) else None;
      if token.Some? && token.value != "" && userData.Some? && userData.value != "" {
        var parsed := parse(userData.value);
        if parsed.Some? {
          authState := AuthState(Some(parsed.value), Some(token.value), true, false);
        } else {
          authState := Initial.(isLoading := false);
        }
      } else {
        authState := Initial.(isLoading := false);
      }
    }

    /** Accepts any credentials; `password` is not read. */
    method Login(email: string, password: string, idStamp: string, tokenStamp: string, serialize: User -> string)
      modifies this
      ensures authState == SignedIn(LoginUser(email, idStamp), MockToken(tokenStamp))
      ensures storage == Persist(old(storage), MockToken(tokenStamp), serialize(LoginUser(email, idStamp)))
    {
      var mockUser := LoginUser(email, idStamp);
      var mockToken := MockToken(tokenStamp);
      authState := AuthState(Some(mockUser), Some(mockToken), true, false);
      storage := storage[TokenKey := mockToken];
      storage := storage[UserKey := serialize(mockUser)];
    }

    /** As `Login`, with the caller's `name`. */
    method Signup(email: string, password: string, name: string, idStamp: string, tokenStamp: string,
                  serialize: User -> string)
      modifies this
      ensures authState == SignedIn(SignupUser(email, name, idStamp), MockToken(tokenStamp))
      ensures storage == Persist(old(storage), MockToken(tokenStamp), serialize(SignupUser(email, name, idStamp)))
    {
      var mockUser := SignupUser(email, name, idStamp);
      var mockToken := MockToken(tokenStamp);
      authState := AuthState(Some(mockUser), Some(mockToken), true, false);
      storage := storage[TokenKey := mockToken];
      storage := storage[UserKey := serialize(mockUser)];
    }

    method Logout()
      modifies this
      ensures authState == Anonymous
      ensures storage == Cleared(old(storage))
    {
      authState := AuthState(None, None, false, false);
      storage := storage - {TokenKey};
      storage := storage - {UserKey};
    }
  }

  /** `login("a@b.com", "x")`, then `logout()`, then a fresh provider restoring
      from the same storage: the session is anonymous. */
  method LoginLogoutRestore(persisted: map<string, string>, idStamp: string, tokenStamp: string,
                            serialize: User -> string, parse: string -> Option<User>)
    returns (restored: AuthState)
    ensures restored == Anonymous
  {
    var auth := new AuthProvider(persisted);
    auth.Restore(parse);
    auth.Login("a@b.com", "x", idStamp, tokenStamp, serialize);
    auth.Logout();
    var next := new AuthProvider(auth.storage);
    next.Restore(parse);
    ClearedThenRestore(auth.storage, parse);
    restored := next.authState;
  }
}
