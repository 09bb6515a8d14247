/**
 * Authentication rules of include/php/classes/Auth.php: the logged-in user
 * slot, the session map, login by e-mail and password, login from the
 * session, role checks, the new-password validator and the hash-schema
 * prefix table. The user table is a sequence of users and `crypt` is a
 * parameter.
 */
module Authentication {
  import opened Wrappers
  import opened PhpStrings

  datatype User = User(id: string, username: string, domain: string, role: string, passwordHash: string)

  /** The role that passes every permission check. */
  const ROLE_ADMIN := "admin"
  /** The session key holding the logged-in user's id. */
  const SESSION_IDENTIFIER := "uid"

  /** crypt(password, salt-or-hash) */
  type Crypt = (string, string) -> string

  /** User::findWhereFirst on (username, domain): the first matching user. */
  function FindWhereFirst(users: seq<User>, username: string, domain: string): (r: Option<User>)
    ensures r.Some? ==> exists i :: 0 <= i < |users| && users[i] == r.value
    ensures r.Some? ==> r.value.username == username && r.value.domain == domain
    ensures r.None? <==> forall i :: 0 <= i < |users| ==> !(users[i].username == username && users[i].domain == domain)
  {
    if users == [] then None
    else if users[0].username == username && users[0].domain == domain then Some(users[0])
    else
      var rest := FindWhereFirst(users[1..], username, domain);
      assert forall i :: 1 <= i < |users| ==> users[i] == users[1..][i - 1];
      rest
  }

  /** User::find on the id: the first user with that id. */
  function Find(users: seq<User>, id: string): (r: Option<User>)
    ensures r.Some? ==> exists i :: 0 <= i < |users| && users[i] == r.value
    ensures r.Some? ==> r.value.id == id
    ensures r.None? <==> forall i :: 0 <= i < |users| ==> users[i].id != id
  {
    if users == [] then None
    else if users[0].id == id then Some(users[0])
    else
      var rest := Find(users[1..], id);
      assert forall i :: 1 <= i < |users| ==> users[i] == users[1..][i - 1];
      rest
  }

  /** checkPasswordByHash */
  predicate CheckPasswordByHash(crypt: Crypt, password: string, hash: string)
  {
    crypt(password, hash) == hash
  }

  /** The user login looks up for an e-mail: None when it does not split into exactly two parts on '@'. */
  function LoginCandidate(email: string, users: seq<User>): Option<User>
  {
    var parts := Split(Lower(email), '@');
    if |parts| != 2 then None else FindWhereFirst(users, parts[0], parts[1])
  }

  /** The user login logs in: the candidate, when the password checks against its hash. */
  function LoginAccepted(email: string, password: string, users: seq<User>, crypt: Crypt): Option<User>
  {
    match LoginCandidate(email, users)
    case None => None
    case Some(u) => if CheckPasswordByHash(crypt, password, u.passwordHash) then Some(u) else None
  }

  /** The user loginUserViaSession finds: only for a set, non-empty session id. */
  function SessionUser(session: map<string, string>, users: seq<User>): Option<User>
  {
    if SESSION_IDENTIFIER in session && !EmptyString(session[SESSION_IDENTIFIER]) then
      Find(users, session[SESSION_IDENTIFIER])
    else None
  }

  /** The exception validateNewPassword throws. */
  datatype PasswordError = PasswordError(message: string, code: int)

  /** validateNewPassword: None when the new password is accepted. */
  function ValidateNewPassword(password: string, passwordRepeated: string, minLength: int): (r: Option<PasswordError>)
    ensures r.Some? ==> r.value.code in {2, 3, 4}
    ensures r.None? ==> !EmptyString(password) && password == passwordRepeated && |password| >= minLength
  {
    if EmptyString(password) then Some(PasswordError("First password field was'nt filled out.", 2))
    else if EmptyString(passwordRepeated) then Some(PasswordError("Repeat password field was'nt filled out.", 2))
    else if password != passwordRepeated then Some(PasswordError("The repeated password must be equal to the first one.", 3))
    else if |password| < minLength then
      Some(PasswordError("Passwords must be at least " + IntToString(minLength) + " characters long.", 4))
    else None
  }

  /** getPasswordSchemaPrefix for the configured schema name. */
  function GetPasswordSchemaPrefix(schema: string): (prefix: string)
    ensures |prefix| >= 2 && prefix[0] == '$' && prefix[|prefix| - 1] == '$'
  {
    if schema == "SHA-256" then "$5$rounds=5000$"
    else if schema == "BLOWFISH" then "$2a$09$"
    else "$6$rounds=5000$"
  }

  /** The static authentication state and the session it writes to. */
  class Auth {
    var loggedInUser: Option<User>
    var session: map<string, string>

    constructor (session: map<string, string>)
      ensures loggedInUser == None && this.session == session
    {
      loggedInUser := None;
      this.session := session;
    }

    predicate IsLoggedIn()
      reads this
    {
      loggedInUser.Some?
    }

    function GetUser(): (u: Option<User>)
      reads this
      ensures u.Some? <==> IsLoggedIn()
      ensures u == loggedInUser
    {
      loggedInUser
    }

    /** hasPermission: the role must match, unless the user is an admin. */
    function HasPermission(requiredRole: string): (allowed: bool)
      reads this
      ensures allowed ==> IsLoggedIn()
      ensures allowed && GetUser().value.role != ROLE_ADMIN ==> GetUser().value.role == requiredRole
    {
      IsLoggedIn() && (GetUser().value.role == requiredRole || GetUser().value.role == ROLE_ADMIN)
    }

    method LoginUserByModel(user: User)
      modifies this
      ensures loggedInUser == Some(user) && session == old(session)
      ensures IsLoggedIn() && GetUser() == Some(user)
    {
      loggedInUser := Some(user);
    }

    method LoginUserViaSession(users: seq<User>)
      modifies this
      ensures session == old(session)
      ensures loggedInUser == match SessionUser(old(session), users)
        case Some(u) => Some(u)
        case None => old(loggedInUser)
    {
      if SESSION_IDENTIFIER in session && !EmptyString(session[SESSION_IDENTIFIER]) {
        var userId := session[SESSION_IDENTIFIER];
        var user := Find(users, userId);
        if user.Some? {
          LoginUserByModel(user.value);
        }
      }
    }

    /** init */
    method Init(users: seq<User>)
      modifies this
      ensures session == old(session)
      ensures loggedInUser == match SessionUser(old(session), users)
        case Some(u) => Some(u)
        case None => old(loggedInUser)
    {
      LoginUserViaSession(users);
    }

    /** login: on success the user is logged in and the session remembers its id; otherwise nothing changes. */
    method Login(email: string, password: string, users: seq<User>, crypt: Crypt) returns (ok: bool)
      modifies this
      ensures ok <==> LoginAccepted(email, password, users, crypt).Some?
      ensures ok ==>
        var u := LoginAccepted(email, password, users, crypt).value;
        loggedInUser == Some(u) && session == old(session)[SESSION_IDENTIFIER := u.id]
      ensures !ok ==> loggedInUser == old(loggedInUser) && session == old(session)
    {
      var lowered := Lower(email);
      var emailInParts := Split(lowered, '@');
      if |emailInParts| != 2 {
        return false;
      }
      var username := emailInParts[0];
      var domain := emailInParts[1];
      var user := FindWhereFirst(users, username, domain);
      if user.Some? {
        if CheckPasswordByHash(crypt, password, user.value.passwordHash) {
          LoginUserByModel(user.value);
          session := session[SESSION_IDENTIFIER := user.value.id];
          return true;
        }
      }
      return false;
    }
  }

  // ---------------------------------------------------------------- properties

  /** The user login accepts is in the table and is named by the lowercased e-mail. */
  lemma LoginCandidateMatches(email: string, users: seq<User>)
    requires LoginCandidate(email, users).Some?
    ensures var u := LoginCandidate(email, users).value;
      && (exists i :: 0 <= i < |users| && users[i] == u)
      && Lower(email) == u.username + "@" + u.domain
  {
    var parts := Split(Lower(email), '@');
    JoinSplit(Lower(email), '@');
    assert parts == [parts[0], parts[1]];
    assert parts[1..] == [parts[1]];
  }

  /** The case of the e-mail does not matter. */
  lemma LoginCaseInsensitive(email: string, password: string, users: seq<User>, crypt: Crypt)
    ensures LoginAccepted(Lower(email), password, users, crypt) == LoginAccepted(email, password, users, crypt)
  {
    LowerIdempotent(email);
  }

  /** An e-mail without exactly one '@' is rejected without a lookup. */
  lemma LoginNeedsOneAt(email: string, password: string, users: seq<User>, crypt: Crypt)
    requires multiset(email)['@'] != 1
    ensures LoginCandidate(email, users) == None
    ensures LoginAccepted(email, password, users, crypt) == None
  {
    LowerKeepsCount(email, '@');
    SplitCount(Lower(email), '@');
  }

  /** login succeeds exactly for a matching user whose hash the password reproduces. */
  lemma LoginAcceptedIff(email: string, password: string, users: seq<User>, crypt: Crypt)
    ensures LoginAccepted(email, password, users, crypt).Some? <==>
      (LoginCandidate(email, users).Some?
       && crypt(password, LoginCandidate(email, users).value.passwordHash) == LoginCandidate(email, users).value.passwordHash)
    ensures LoginAccepted(email, password, users, crypt).Some? ==>
      LoginAccepted(email, password, users, crypt) == LoginCandidate(email, users)
  {
  }

  /**
   * A successful login is remembered: with unique ids, the session it
   * leaves behind logs the same user in again (unless its id is empty in
   * PHP's sense).
   */
  lemma LoginSessionRoundTrip(email: string, password: string, users: seq<User>, crypt: Crypt, session: map<string, string>)
    requires forall i, j :: 0 <= i < |users| && 0 <= j < |users| && users[i].id == users[j].id ==> i == j
    requires LoginAccepted(email, password, users, crypt).Some?
    requires !EmptyString(LoginAccepted(email, password, users, crypt).value.id)
    ensures var u := LoginAccepted(email, password, users, crypt).value;
      SessionUser(session[SESSION_IDENTIFIER := u.id], users) == Some(u)
  {
    var u := LoginAccepted(email, password, users, crypt).value;
    LoginCandidateMatches(email, users);
    var i :| 0 <= i < |users| && users[i] == u;
    var found := Find(users, u.id);
    var j :| 0 <= j < |users| && users[j] == found.value;
    assert i == j;
  }

  /** Nobody logged in has no permission; an admin has every one; anyone else has exactly their own role. */
  lemma HasPermissionCases(a: Auth, requiredRole: string)
    ensures !a.IsLoggedIn() ==> !a.HasPermission(requiredRole)
    ensures a.IsLoggedIn() && a.GetUser().value.role == ROLE_ADMIN ==> a.HasPermission(requiredRole)
    ensures a.IsLoggedIn() && a.GetUser().value.role != ROLE_ADMIN ==>
      (a.HasPermission(requiredRole) <==> requiredRole == a.GetUser().value.role)
  {
  }

  /** Passing every check is the same as being a logged-in admin. */
  lemma AllPermissionsIffAdmin(a: Auth)
    ensures (forall r :: a.HasPermission(r)) <==> (a.IsLoggedIn() && a.GetUser().value.role == ROLE_ADMIN)
  {
    if a.IsLoggedIn() && a.GetUser().value.role != ROLE_ADMIN {
      var other := a.GetUser().value.role + "x";
      assert !a.HasPermission(other);
    } else if !a.IsLoggedIn() {
      assert !a.HasPermission("");
    }
  }

  /** validateNewPassword accepts exactly two equal, non-empty passwords of at least the minimum length. */
  lemma ValidateAcceptsIff(password: string, passwordRepeated: string, minLength: int)
    ensures ValidateNewPassword(password, passwordRepeated, minLength).None? <==>
      !EmptyString(password) && !EmptyString(passwordRepeated) && password == passwordRepeated && |password| >= minLength
  {
  }

  /** The error codes, in the order the checks are made. */
  lemma ValidateCodes(password: string, passwordRepeated: string, minLength: int)
    ensures var r := ValidateNewPassword(password, passwordRepeated, minLength);
      && (r.Some? && r.value.code == 2 <==> EmptyString(password) || EmptyString(passwordRepeated))
      && (r.Some? && r.value.code == 3 <==>
            !EmptyString(password) && !EmptyString(passwordRepeated) && password != passwordRepeated)
      && (r.Some? && r.value.code == 4 <==>
            !EmptyString(password) && !EmptyString(passwordRepeated) && password == passwordRepeated
            && |password| < minLength)
      && (r.Some? ==> r.value.code in {2, 3, 4})
  {
  }

  /** "0" is empty to PHP, so it is refused like "". */
  lemma ZeroPasswordIsEmpty(passwordRepeated: string, minLength: int)
    ensures ValidateNewPassword("0", passwordRepeated, minLength) == Some(PasswordError("First password field was'nt filled out.", 2))
    ensures ValidateNewPassword("secret", "0", minLength) == Some(PasswordError("Repeat password field was'nt filled out.", 2))
  {
    assert "secret" != "0";
  }

  /** The prefix table: SHA-256 and BLOWFISH have their own prefix, everything else gets SHA-512's. */
  lemma SchemaPrefixIff(schema: string)
    ensures GetPasswordSchemaPrefix(schema) == "$5$rounds=5000$" <==> schema == "SHA-256"
    ensures GetPasswordSchemaPrefix(schema) == "$2a$09$" <==> schema == "BLOWFISH"
    ensures GetPasswordSchemaPrefix(schema) == "$6$rounds=5000$" <==> schema != "SHA-256" && schema != "BLOWFISH"
    ensures GetPasswordSchemaPrefix("SHA-512") == "$6$rounds=5000$"
  {
    assert "$5$rounds=5000$" != "$2a$09$";
    assert "$5$rounds=5000$"[1] != "$6$rounds=5000$"[1];
    assert "$2a$09$" != "$6$rounds=5000$";
  }
}
