/** Sign-up and login (auth.py). Password hashing is a foreign library: the
    hash of a new password is a parameter, and checking a password against a
    stored hash is a function parameter `verify`. */
module Auth {
  import opened Entries
  import opened Database

  datatype SignupError = UsernameTaken | UsernameTooShort | PasswordTooShort | CreateFailed

  datatype SignupResult = SignedUp | Refused(error: SignupError)

  /** The answer signup_user gives on a store holding `users`: the name as
      typed must be free, the stripped name at least 3 characters long, the
      password at least 6; the stripped name is what is stored, and the store
      refuses it when it is taken. */
  function SignupDecision(users: map<string, string>, username: string, password: string): (r: SignupResult)
    ensures r == SignedUp <==>
              username !in users && |Strip(username)| >= 3 && |password| >= 6 && Strip(username) !in users
    ensures username in users ==> r == Refused(UsernameTaken)
    ensures username !in users && |Strip(username)| < 3 ==> r == Refused(UsernameTooShort)
    ensures username !in users && |Strip(username)| >= 3 && |password| < 6 ==> r == Refused(PasswordTooShort)
  {
    if username in users then Refused(UsernameTaken)
    else if |Strip(username)| < 3 then Refused(UsernameTooShort)
    else if |password| < 6 then Refused(PasswordTooShort)
    else if Strip(username) in users then Refused(CreateFailed)
    else SignedUp
  }

  /** signup_user: the checks in order, then create_user with the stripped
      name. */
  method SignupUser(db: DatabaseManager, username: string, password: string, passwordHash: string)
    returns (r: SignupResult)
    requires db.Valid()
    modifies db
    ensures db.Valid()
    ensures r == SignupDecision(old(db.users), username, password)
    ensures r == SignedUp ==> db.users == old(db.users)[Strip(username) := passwordHash]
    ensures r != SignedUp ==> db.users == old(db.users)
    ensures db.rows == old(db.rows) && db.nextId == old(db.nextId) && db.rewards == old(db.rewards)
  {
    var existing := db.GetUser(username);
    if existing.Some? {
      return Refused(UsernameTaken);
    }
    if |Strip(username)| < 3 {
      return Refused(UsernameTooShort);
    }
    if |password| < 6 {
      return Refused(PasswordTooShort);
    }
    var success := db.CreateUser(Strip(username), passwordHash);
    if success {
      return SignedUp;
    }
    return Refused(CreateFailed);
  }

  /** The store refuses the new account only for a name typed with
      surrounding spaces whose stripped form is already taken. */
  lemma CreateFailsOnlyForPaddedNames(users: map<string, string>, username: string, password: string)
    requires SignupDecision(users, username, password) == Refused(CreateFailed)
    ensures Strip(username) != username && Strip(username) in users
    ensures |Strip(username)| >= 3 && |password| >= 6
  {
  }

  /** Once a name is signed up, signing up again with the stored name is
      refused as taken, whatever the password. */
  lemma SignupOnce(users: map<string, string>, username: string, password: string, passwordHash: string, again: string)
    requires SignupDecision(users, username, password) == SignedUp
    ensures SignupDecision(users[Strip(username) := passwordHash], Strip(username), again) == Refused(UsernameTaken)
  {
  }

  /** Sign-up stores the stripped name: a name typed with surrounding spaces
      does not itself become a user, so a login with it as typed finds no
      account. */
  lemma PaddedNameNotStored(users: map<string, string>, username: string, password: string, passwordHash: string)
    requires SignupDecision(users, username, password) == SignedUp
    requires Strip(username) != username
    ensures username !in users[Strip(username) := passwordHash]
    ensures Strip(username) in users[Strip(username) := passwordHash]
  {
  }

  /** login_user: the user must exist and the password must verify against
      the stored hash. */
  method LoginUser(db: DatabaseManager, username: string, password: string, verify: (string, string) -> bool)
    returns (ok: bool)
    ensures ok <==> username in db.users && verify(password, db.users[username])
  {
    var user := db.GetUser(username);
    ok := user.Some? && verify(password, user.value.passwordHash);
  }
}
