/**
 * The mock authentication state (src/context/AuthContext.tsx): the signed-in
 * user and a loading flag, kept in step with the `zenya_user` and `zenya_token`
 * keys of localStorage. `Date.now()` is a parameter; the one-second delays,
 * toasts and navigation are not modelled.
 */
module AuthContext {
  import opened Types
  import opened Strings
  import opened Storage

  /** The token every successful sign-in stores. */
  const MockToken := "mock-jwt-token"

  const MinPasswordLength := 6

  datatype AuthError = InvalidCredentials | PasswordTooShort

  /** The stored user as `localStorage.getItem` returns it is non-empty text. */
  predicate StoredUserTruthy(stored: Option<StoredUser>)
  {
    stored.Some? && (stored.value.UserJson? || stored.value.text != "")
  }

  /** The account a sign-in or a registration creates. */
  function NewUser(nowMillis: int, name: string, email: string): (u: User)
    ensures u.name == name && u.email == email && u.role == Customer
    ensures u.id == "user-" + IntToString(nowMillis)
  {
    User("user-" + IntToString(nowMillis), name, email, Customer)
  }

  /** Sign-in accepts any non-empty email with a password of six UTF-16 code units or more. */
  predicate AcceptsLogin(email: string, password: string)
  {
    email != "" && Utf16Length(password) >= MinPasswordLength
  }

  /** `password.length` counts UTF-16 code units: three characters beyond U+FFFF
      make a password long enough, although it has only three characters. */
  lemma ThreeEmojiPasswordAccepted()
    ensures |"\U{1F600}\U{1F600}\U{1F600}"| == 3
    ensures AcceptsLogin("a@b", "\U{1F600}\U{1F600}\U{1F600}")
  {
    var e := "\U{1F600}";
    assert Utf16Length(e) == 2;
    assert "\U{1F600}\U{1F600}\U{1F600}"[1..] == e + e;
    assert (e + e)[1..] == e;
  }

  /** The name a sign-in derives: the email up to its first '@'. */
  lemma LoginName(local: string, domain: string)
    requires '@' !in local
    ensures Before(local + "@" + domain, '@') == local
    ensures Before(local, '@') == local
  {
    BeforeFirst(local, '@', domain);
    assert local + "@" + domain == local + ['@'] + domain;
  }

  class Auth {
    const storage: LocalStorage
    var user: Option<User>
    var isLoading: bool

    /** The provider before its load effect: nobody signed in, loading. */
    constructor(storage: LocalStorage)
      ensures this.storage == storage && user == None && isLoading
    {
      this.storage := storage;
      user := None;
      isLoading := true;
    }

    /** `isAuthenticated`. */
    predicate IsAuthenticated()
      reads this
    {
      user.Some?
    }

    /** The signed-in user is the one stored, alongside a token. */
    ghost predicate Persisted()
      reads this, storage
    {
      user.Some? ==> storage.user == Some(UserJson(user.value)) && Truthy(storage.token)
    }

    /**
     * `loadUser`: with both keys set, restore the stored user, or, when its text
     * does not parse, remove both keys; then stop loading.
     */
    method LoadUser()
      modifies this, storage
      ensures !isLoading
      ensures storage.bookings == old(storage.bookings) && storage.services == old(storage.services)
      ensures storage.users == old(storage.users)
      ensures var stored, token := old(storage.user), old(storage.token);
        if StoredUserTruthy(stored) && Truthy(token) then
          if stored.value.UserJson? then
            user == Some(stored.value.user) && storage.user == stored && storage.token == token
          else
            user == old(user) && storage.user == None && storage.token == None
        else
          user == old(user) && storage.user == stored && storage.token == token
      ensures user.Some? && user != old(user) ==> Persisted()
    {
      var storedUser := storage.user;
      var token := storage.token;
      if StoredUserTruthy(storedUser) && Truthy(token) {
        match storedUser.value
        case UserJson(u) =>
          user := Some(u);
        case Unparsable(_) =>
          storage.user := None;
          storage.token := None;
      }
      isLoading := false;
    }

    /**
     * `login`: when accepted, store and sign in a customer named after the
     * email's local part; otherwise fail and change nothing. Either way loading
     * has stopped.
     */
    method Login(email: string, password: string, nowMillis: int) returns (r: Outcome<AuthError>)
      modifies this, storage
      ensures !isLoading
      ensures r == Pass <==> AcceptsLogin(email, password)
      ensures r == Pass ==>
                var u := NewUser(nowMillis, Before(email, '@'), email);
                && user == Some(u)
                && storage.user == Some(UserJson(u)) && storage.token == Some(MockToken)
      ensures r != Pass ==>
                && r == Fail(InvalidCredentials) && user == old(user)
                && storage.user == old(storage.user) && storage.token == old(storage.token)
      ensures storage.bookings == old(storage.bookings) && storage.services == old(storage.services)
      ensures storage.users == old(storage.users)
      ensures old(Persisted()) ==> Persisted()
    {
      isLoading := true;
      if email != "" && Utf16Length(password) >= MinPasswordLength {
        var userData := User("user-" + IntToString(nowMillis), Before(email, '@'), email, Customer);
        storage.user := Some(UserJson(userData));
        storage.token := Some(MockToken);
        user := Some(userData);
        isLoading := false;
        return Pass;
      }
      isLoading := false;
      r := Fail(InvalidCredentials);
    }

    /**
     * `register`: a password shorter than six UTF-16 code units fails before anything
     * is stored; otherwise store and sign in a customer with the name and email
     * as given. Either way loading has stopped.
     */
    method Register(name: string, email: string, password: string, nowMillis: int) returns (r: Outcome<AuthError>)
      modifies this, storage
      ensures !isLoading
      ensures r == Pass <==> Utf16Length(password) >= MinPasswordLength
      ensures r == Pass ==>
                var u := NewUser(nowMillis, name, email);
                && user == Some(u)
                && storage.user == Some(UserJson(u)) && storage.token == Some(MockToken)
      ensures r != Pass ==>
                && r == Fail(PasswordTooShort) && user == old(user)
                && storage.user == old(storage.user) && storage.token == old(storage.token)
      ensures storage.bookings == old(storage.bookings) && storage.services == old(storage.services)
      ensures storage.users == old(storage.users)
      ensures old(Persisted()) ==> Persisted()
    {
      isLoading := true;
      if Utf16Length(password) < MinPasswordLength {
        isLoading := false;
        return Fail(PasswordTooShort);
      }
      var userData := User("user-" + IntToString(nowMillis), name, email, Customer);
      storage.user := Some(UserJson(userData));
      storage.token := Some(MockToken);
      user := Some(userData);
      isLoading := false;
      r := Pass;
    }

    /** `logout`: remove both keys and sign out. */
    method Logout()
      modifies this, storage
      ensures user == None && !IsAuthenticated() && isLoading == old(isLoading)
      ensures storage.user == None && storage.token == None
      ensures storage.bookings == old(storage.bookings) && storage.services == old(storage.services)
      ensures storage.users == old(storage.users)
      ensures Persisted()
    {
      storage.user := None;
      storage.token := None;
      user := None;
    }
  }

  /** A session survives a reload: after a successful sign-in, a fresh provider
      over the same storage loads the same user. */
  method LoginSurvivesReload(storage: LocalStorage, email: string, password: string, nowMillis: int)
    returns (first: Auth, second: Auth)
    requires AcceptsLogin(email, password)
    modifies storage
    ensures first.storage == storage && second.storage == storage
    ensures first.user.Some? && second.user == first.user
    ensures first.user.value.name == Before(email, '@')
  {
    first := new Auth(storage);
    var r := first.Login(email, password, nowMillis);
    second := new Auth(storage);
    second.LoadUser();
  }

  /** Signing out ends the session for good: a reload finds nobody. */
  method LogoutSurvivesReload(a: Auth) returns (second: Auth)
    modifies a, a.storage
    ensures second.storage == a.storage && second.user == None && !second.IsAuthenticated()
  {
    a.Logout();
    second := new Auth(a.storage);
    second.LoadUser();
  }
}
