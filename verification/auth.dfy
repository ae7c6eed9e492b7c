/**
 * The demo user registry of js/auth.js: the users list and the session slot
 * kept in `localStorage`, the signup and login handlers, and logout. The two
 * storage keys become the two fields of `Registry`; reading and writing the
 * JSON is the identity on them.
 */
module Auth {
  import opened Wrappers
  import opened Text

  /** `{ email, pwd }` as stored. */
  datatype User = User(email: string, pwd: string)

  datatype SignupResult = SignedUp | FillAllFields | PasswordsDiffer | UserExists

  datatype LoginResult = LoggedIn | EnterBoth | InvalidCredentials

  /** The text written into `#signupError` (empty after a success, which navigates away). */
  function SignupMessage(r: SignupResult): string
  {
    match r
    case SignedUp => ""
    case FillAllFields => "Please fill all fields"
    case PasswordsDiffer => "Passwords do not match"
    case UserExists => "User already exists"
  }

  /** The text written into `#loginError`. */
  function LoginMessage(r: LoginResult): string
  {
    match r
    case LoggedIn => ""
    case EnterBoth => "Please enter both email and password"
    case InvalidCredentials => "Invalid credentials"
  }

  predicate HasEmail(users: seq<User>, email: string)
  {
    exists k :: 0 <= k < |users| && users[k].email == email
  }

  predicate HasAccount(users: seq<User>, email: string, pwd: string)
  {
    exists k :: 0 <= k < |users| && users[k] == User(email, pwd)
  }

  /** No two stored users share an email. */
  predicate UniqueEmails(users: seq<User>)
  {
    forall j, k :: 0 <= j < k < |users| ==> users[j].email != users[k].email
  }

  class Registry {
    /** `finance_users`. */
    var users: seq<User>
    /** `finance_session`: the email of the signed-in user, `None` when the key is absent. */
    var session: Option<string>

    constructor(stored: seq<User>, storedSession: Option<string>)
      ensures users == stored && session == storedSession
    {
      users := stored;
      session := storedSession;
    }

    /** `users.find(u => u.email === email)`. */
    method FindByEmail(email: string) returns (found: bool)
      ensures found <==> HasEmail(users, email)
    {
      var i := 0;
      while i < |users|
        invariant 0 <= i <= |users|
        invariant forall k :: 0 <= k < i ==> users[k].email != email
      {
        if users[i].email == email {
          return true;
        }
        i := i + 1;
      }
      return false;
    }

    /** `users.find(u => u.email === email && u.pwd === pwd)`. */
    method FindAccount(email: string, pwd: string) returns (found: bool)
      ensures found <==> HasAccount(users, email, pwd)
    {
      var i := 0;
      while i < |users|
        invariant 0 <= i <= |users|
        invariant forall k :: 0 <= k < i ==> users[k] != User(email, pwd)
      {
        if users[i].email == email && users[i].pwd == pwd {
          return true;
        }
        i := i + 1;
      }
      return false;
    }

    /**
     * The signup handler: every field is trimmed; a refused signup changes
     * nothing; an accepted one appends exactly the new user. It never
     * touches the session.
     */
    method Signup(email: string, pwd: string, confirm: string) returns (result: SignupResult)
      modifies this
      ensures result == FillAllFields <==> Trim(email) == "" || Trim(pwd) == "" || Trim(confirm) == ""
      ensures result == PasswordsDiffer <==>
                Trim(email) != "" && Trim(pwd) != "" && Trim(confirm) != "" && Trim(pwd) != Trim(confirm)
      ensures result == UserExists <==>
                Trim(email) != "" && Trim(pwd) != "" && Trim(pwd) == Trim(confirm) && HasEmail(old(users), Trim(email))
      ensures result != SignedUp ==> users == old(users)
      ensures result == SignedUp ==> users == old(users) + [User(Trim(email), Trim(pwd))]
      ensures session == old(session)
      ensures UniqueEmails(old(users)) ==> UniqueEmails(users)
      ensures result == SignedUp ==> HasAccount(users, Trim(email), Trim(pwd))
    {
      var e := Trim(email);
      var p := Trim(pwd);
      var c := Trim(confirm);
      if e == "" || p == "" || c == "" {
        return FillAllFields;
      }
      if p != c {
        return PasswordsDiffer;
      }
      var taken := FindByEmail(e);
      if taken {
        return UserExists;
      }
      users := users + [User(e, p)];
      assert users[|users| - 1] == User(e, p);
      result := SignedUp;
    }

    /**
     * The login handler: both fields trimmed and required; it succeeds
     * exactly when a stored user matches both, and only then sets the
     * session.
     */
    method Login(email: string, pwd: string) returns (result: LoginResult)
      modifies this
      ensures users == old(users)
      ensures result == EnterBoth <==> Trim(email) == "" || Trim(pwd) == ""
      ensures result == LoggedIn <==> Trim(email) != "" && Trim(pwd) != "" && HasAccount(users, Trim(email), Trim(pwd))
      ensures result == LoggedIn ==> session == Some(Trim(email))
      ensures result != LoggedIn ==> session == old(session)
    {
      var e := Trim(email);
      var p := Trim(pwd);
      if e == "" || p == "" {
        return EnterBoth;
      }
      var found := FindAccount(e, p);
      if !found {
        return InvalidCredentials;
      }
      session := Some(e);
      result := LoggedIn;
    }

    /** The logout button of the dashboard: `clearSession()`. */
    method Logout()
      modifies this
      ensures session == None && users == old(users)
    {
      session := None;
    }

    /** The dashboard guard lets the page stay only with a session. */
    predicate MayViewDashboard()
      reads this
    {
      session.Some?
    }
  }

  /**
   * Signing up and then logging in with the same details succeeds: the
   * stored user is the trimmed pair, which trimming again leaves as is.
   */
  method SignupThenLogin(r: Registry, email: string, pwd: string) returns (s: SignupResult, l: LoginResult)
    modifies r
    ensures s == SignedUp <==> Trim(email) != "" && Trim(pwd) != "" && !HasEmail(old(r.users), Trim(email))
    ensures s == SignedUp ==> l == LoggedIn && r.session == Some(Trim(email)) && r.MayViewDashboard()
  {
    s := r.Signup(email, pwd, pwd);
    TrimIdempotent(email);
    TrimIdempotent(pwd);
    l := r.Login(Trim(email), Trim(pwd));
  }
}
