/**
 * The auth handlers (backend/internal/handlers/auth.go): the byte-wise
 * substring search behind duplicate-key detection, and the outcomes of
 * `Register` and `Login` over an in-memory `users` table. bcrypt, the JWT
 * signer and database failures other than the unique-email constraint are
 * parameters.
 */
module AuthHandler {
  import opened Wrappers
  import opened UserModel

  // ── Substring search ─────────────────────────────────────────────────

  /** `sub` occurs in `s` starting at byte `i`. */
  predicate OccursAt(s: string, sub: string, i: int) {
    0 <= i && i + |sub| <= |s| && s[i..i + |sub|] == sub
  }

  /** `sub` occurs somewhere in `s`. */
  predicate Occurs(s: string, sub: string) {
    exists i :: 0 <= i <= |s| - |sub| && OccursAt(s, sub, i)
  }

  /** `searchString`: try every start from 0 to `len(s) - len(substr)` in turn. */
  method SearchString(s: string, sub: string) returns (found: bool)
    ensures found <==> Occurs(s, sub)
  {
    var i: int := 0;
    while i <= |s| - |sub|
      invariant 0 <= i
      invariant forall j :: 0 <= j < i && j <= |s| - |sub| ==> !OccursAt(s, sub, j)
      decreases |s| - |sub| - i + 1
    {
      if s[i..i + |sub|] == sub {
        assert OccursAt(s, sub, i);
        return true;
      }
      i := i + 1;
    }
    found := false;
  }

  /** `contains`: a length check, then the search. */
  method Contains(s: string, sub: string) returns (b: bool)
    ensures b <==> Occurs(s, sub)
    ensures |sub| > |s| ==> !b
  {
    if |s| < |sub| {
      return false;
    }
    b := SearchString(s, sub);
  }

  /** The empty text occurs in every text, at its start. */
  lemma EmptyOccurs(s: string)
    ensures Occurs(s, "")
  {
    assert OccursAt(s, "", 0);
  }

  /** An occurrence inside a prefix is an occurrence in the whole text. */
  lemma OccursInExtension(s: string, t: string, sub: string)
    requires Occurs(s, sub)
    ensures Occurs(s + t, sub)
  {
    var i :| 0 <= i <= |s| - |sub| && OccursAt(s, sub, i);
    assert (s + t)[i..i + |sub|] == s[i..i + |sub|];
    assert OccursAt(s + t, sub, i);
  }

  /** An error text naming a unique violation. */
  predicate NamesDuplicateKey(message: string) {
    Occurs(message, "duplicate key") || Occurs(message, "23505")
  }

  /** `isDuplicateKeyError`: a non-nil error whose text names a unique violation. */
  method IsDuplicateKeyError(err: Option<string>) returns (b: bool)
    ensures b <==> err.Some? && NamesDuplicateKey(err.value)
    ensures err.None? ==> !b
  {
    if err.None? {
      return false;
    }
    b := Contains(err.value, "duplicate key");
    if !b {
      b := Contains(err.value, "23505");
    }
  }

  /** The text the database reports when an INSERT repeats a registered email. */
  const UniqueEmailViolation: string :=
    "ERROR: " + "duplicate key" + " value violates unique constraint \"users_email_key\" (SQLSTATE 23505)"

  /** PostgreSQL's unique-violation text is recognised. */
  lemma UniqueViolationDetected()
    ensures Occurs(UniqueEmailViolation, "duplicate key")
  {
    var head, tail := "ERROR: ", " value violates unique constraint \"users_email_key\" (SQLSTATE 23505)";
    assert UniqueEmailViolation == head + "duplicate key" + tail;
    assert (head + "duplicate key" + tail)[|head|..|head| + 13] == "duplicate key";
    assert OccursAt(UniqueEmailViolation, "duplicate key", |head|);
  }

  // ── Register and Login ───────────────────────────────────────────────

  /** What a handler writes: an error message, a validation report, or a token and the user. */
  datatype AuthReply =
    | Failure(status: int, message: string)
    | ValidationFailed(status: int, details: map<string, string>)
    | Authenticated(status: int, token: string, user: User)

  /** `SELECT … FROM users WHERE email = $1`. */
  function FindByEmail(users: seq<User>, email: string): (u: Option<User>)
    ensures u.Some? ==> u.value in users && u.value.email == email
    ensures u.None? ==> forall i :: 0 <= i < |users| ==> users[i].email != email
    decreases |users|
  {
    if users == [] then None
    else if users[|users| - 1].email == email then Some(users[|users| - 1])
    else FindByEmail(users[..|users| - 1], email)
  }

  /**
   * `POST /api/auth/register`. `hash` is bcrypt's result (None: it failed),
   * `dbError` another failure of the INSERT, `newId` the id the database
   * assigns, `token` the signer's result. The unique index on `email` makes a
   * repeated email fail with the unique-violation text. Every account is
   * created with role `admin`.
   */
  method Register(users: seq<User>, req: RegisterRequest, hash: Option<string>, dbError: Option<string>,
                  newId: string, token: Option<string>)
    returns (reply: AuthReply, users': seq<User>)
    ensures reply.ValidationFailed? <==> !req.WellFormed()
    ensures reply.ValidationFailed? ==> reply.status == 422 && reply.details != map[]
    ensures req.WellFormed() && hash.None? ==> reply == Failure(500, "Failed to create account")
    ensures req.WellFormed() && hash.Some? && FindByEmail(users, req.email).Some? ==>
      reply == Failure(409, "An account with this email already exists")
    ensures users' == users || (hash.Some? && users' == users + [User(newId, req.email, hash.value, req.name, "admin")])
    ensures users' != users <==>
      req.WellFormed() && hash.Some? && FindByEmail(users, req.email).None? && dbError.None?
    ensures req.WellFormed() && hash.Some? && FindByEmail(users, req.email).None? && dbError.Some? ==>
      reply == if NamesDuplicateKey(dbError.value) then Failure(409, "An account with this email already exists")
               else Failure(500, "Failed to create account")
    ensures reply.Authenticated? <==> users' != users && token.Some?
    ensures users' != users && token.None? ==> reply == Failure(500, "Account created but login failed")
    ensures reply.Authenticated? ==>
      reply == Authenticated(201, token.value, User(newId, req.email, "", req.name, "admin"))
  {
    users' := users;
    var errs := req.Validate();
    if errs != map[] {
      return ValidationFailed(422, errs), users';
    }
    if hash.None? {
      return Failure(500, "Failed to create account"), users';
    }
    var insertError := if FindByEmail(users, req.email).Some? then Some(UniqueEmailViolation) else dbError;
    if insertError.Some? {
      var duplicate := IsDuplicateKeyError(insertError);
      if insertError == Some(UniqueEmailViolation) {
        UniqueViolationDetected();
      }
      if duplicate {
        return Failure(409, "An account with this email already exists"), users';
      }
      return Failure(500, "Failed to create account"), users';
    }
    users' := users + [User(newId, req.email, hash.value, req.name, "admin")];
    if token.None? {
      return Failure(500, "Account created but login failed"), users';
    }
    reply := Authenticated(201, token.value, User(newId, req.email, "", req.name, "admin"));
  }

  /** The reply to both an unknown email and a wrong password. */
  const BadCredentials: AuthReply := Failure(401, "Invalid email or password")

  /**
   * `POST /api/auth/login`. `matches(hash, password)` is bcrypt's comparison,
   * `token` the signer's result. An unknown email and a wrong password get the
   * same reply, so the reply does not reveal which emails are registered.
   * The user sent back has an empty password hash.
   */
  method Login(users: seq<User>, req: LoginRequest, matches: (string, string) -> bool, token: Option<string>)
    returns (reply: AuthReply)
    ensures reply.ValidationFailed? <==> !req.WellFormed()
    ensures reply.ValidationFailed? ==> reply.status == 422 && reply.details != map[]
    ensures req.WellFormed() && FindByEmail(users, req.email).None? ==> reply == BadCredentials
    ensures (req.WellFormed() && FindByEmail(users, req.email).Some? &&
      !matches(FindByEmail(users, req.email).value.passwordHash, req.password)) ==> reply == BadCredentials
    ensures reply.Authenticated? <==>
      req.WellFormed() && FindByEmail(users, req.email).Some? &&
      matches(FindByEmail(users, req.email).value.passwordHash, req.password) && token.Some?
    ensures reply.Authenticated? ==>
      reply == Authenticated(200, token.value, FindByEmail(users, req.email).value.(passwordHash := ""))
    ensures reply.Failure? && reply != BadCredentials ==> reply == Failure(500, "Login failed")
  {
    var errs := req.Validate();
    if errs != map[] {
      return ValidationFailed(422, errs);
    }
    var found := FindByEmail(users, req.email);
    if found.None? {
      return BadCredentials;
    }
    var user := found.value;
    if !matches(user.passwordHash, req.password) {
      return BadCredentials;
    }
    if token.None? {
      return Failure(500, "Login failed");
    }
    reply := Authenticated(200, token.value, user.(passwordHash := ""));
  }
}
