/**
 * Signup and login. Signup builds a user from the (already validated and
 * sanitized) body, replaces its password by a bcrypt hash, saves it and
 * answers 201 with a signed token. Login finds the user by email, or else by
 * username, checks the password against the stored hash and answers with a
 * token for that user. bcrypt's `hash` and `compare` and `jwt.sign` are
 * parameters; the salt is an input.
 */
module AuthController {
  import opened Wrappers
  import opened Text
  import opened Http
  import opened UserModel
  import opened UserStore
  import opened UserValidator

  /** The token payload `{ user: { email, username, id } }`. */
  datatype Claims = Claims(email: string, username: string, id: UserId)

  /** `bcrypt.hash(password, salt)`, `bcrypt.compare(password, hash)`, `jwt.sign(payload, secret, { expiresIn })`. */
  datatype AuthLib = AuthLib(hash: (string, string) -> string,
                             compare: (string, string) -> bool,
                             sign: (Claims, int) -> string)

  /** The `expiresIn` of every token, in seconds. */
  const TokenLifetime := 360000

  const InvalidCredentials := "Invalid credentials.  Please try again."
  const ServerErrorText := "Server Error"

  function ClaimsOf(u: User): Claims
  {
    Claims(u.email, u.username, u.id)
  }

  /** The token issued for a stored user. */
  function TokenFor(lib: AuthLib, u: User): string
  {
    lib.sign(ClaimsOf(u), TokenLifetime)
  }

  /**
   * The record signup saves: the schema's new user built from the body, with
   * the password replaced by its hash before anything is stored.
   */
  function NewAccount(lib: AuthLib, b: Body, id: UserId, now: int, salt: string): (u: User)
    ensures u.password == lib.hash(Field(b, Password), salt)
    ensures u.(password := Field(b, Password))
            == NewUser(id, now, Field(b, Username), Field(b, Name), Field(b, Email), Field(b, Password))
  {
    var plain := NewUser(id, now, Field(b, Username), Field(b, Name), Field(b, Email), Field(b, Password));
    plain.(password := lib.hash(Field(b, Password), salt))
  }

  /**
   * `signup`: the hashed account is saved and the answer is 201 with the
   * submitted email and username and a token for the stored user; a refused
   * save throws, which the handler only logs, so nothing is sent.
   */
  method Signup(store: Users, lib: AuthLib, b: Body, id: UserId, now: int, salt: string) returns (resp: Response)
    requires store.Valid()
    modifies store
    ensures store.Valid()
    ensures var u := NewAccount(lib, b, id, now, salt);
            var ok := SchemaValid(u) && NoClash(old(store.docs), -1, u);
            && store.docs == (if ok then old(store.docs) + [u] else old(store.docs))
            && resp == if ok then Json(Created, Session(Field(b, Email), Field(b, Username), TokenFor(lib, u))) else Silent
  {
    var u := NewAccount(lib, b, id, now, salt);
    var ok := store.Insert(u);
    if ok {
      resp := Json(Created, Session(Field(b, Email), Field(b, Username), TokenFor(lib, u)));
    } else {
      resp := Silent;
    }
  }

  /**
   * The escape sanitizer turns a string without surrounding white space into
   * one without (HTML entities contain none).
   */
  ghost predicate EscapeKeepsTrimmed(lib: Library)
  {
    forall s :: IsTrimmed(s) ==> IsTrimmed(lib.escape(s))
  }

  /** The fields of a body that signup can store as they are: present, trimmed, non-empty. */
  predicate StorableSignup(b: Body)
  {
    && Field(b, Username) != "" && IsTrimmed(Field(b, Username))
    && Field(b, Name) != "" && IsTrimmed(Field(b, Name))
    && Field(b, Email) != "" && IsTrimmed(Field(b, Email))
    && Field(b, Password) != ""
  }

  /** Whatever `validateSignup` lets through is storable. */
  lemma ValidatedSignupStorable(vlib: Library, raw: Body)
    requires EscapeKeepsTrimmed(vlib)
    requires ValidateSignup(vlib, raw).Pass?
    ensures StorableSignup(ValidateSignup(vlib, raw).value)
  {
    SignupValidation(vlib, raw);
    SanitizedSignupFields(vlib, raw);
    var username, name := Trim(Field(raw, Username)), Trim(Field(raw, Name));
    assert IsTrimmed(vlib.escape(username)) && IsTrimmed(vlib.escape(name));
  }

  /**
   * A storable body that `ensureDoesntExist` lets through gives an account that
   * passes the schema and the unique indexes, given a fresh id and a hash that
   * is never empty.
   */
  lemma StorableAccountSaves(lib: AuthLib, docs: seq<User>, b: Body, id: UserId, now: int, salt: string)
    requires StorableSignup(b)
    requires forall p, s :: lib.hash(p, s) != ""
    requires !Taken(docs, ById, id)
    requires EnsureDoesntExist(docs, b).Pass?
    ensures SchemaValid(NewAccount(lib, b, id, now, salt))
    ensures NoClash(docs, -1, NewAccount(lib, b, id, now, salt))
  {
    var u := NewAccount(lib, b, id, now, salt);
    TrimOfTrimmed(Field(b, Username));
    TrimOfTrimmed(Field(b, Name));
    TrimOfTrimmed(Field(b, Email));
    assert u.username == Field(b, Username) && u.name == Field(b, Name) && u.email == Field(b, Email);
    forall j | 0 <= j < |docs| ensures KeysDiffer(docs[j], u) {
      assert KeyOf(docs[j], ById) != id;
      assert KeyOf(docs[j], ByEmail) != Field(b, Email);
      assert KeyOf(docs[j], ByUsername) != Field(b, Username);
    }
  }

  /**
   * The signup route `validateSignup, ensureDoesntExist, signup`: once both
   * gates let a body through, the save in `signup` succeeds.
   */
  lemma SignupRouteSaves(vlib: Library, lib: AuthLib, docs: seq<User>, raw: Body, id: UserId, now: int, salt: string)
    requires EscapeKeepsTrimmed(vlib)
    requires forall p, s :: lib.hash(p, s) != ""
    requires !Taken(docs, ById, id)
    requires ValidateSignup(vlib, raw).Pass?
    requires EnsureDoesntExist(docs, ValidateSignup(vlib, raw).value).Pass?
    ensures var u := NewAccount(lib, ValidateSignup(vlib, raw).value, id, now, salt);
            SchemaValid(u) && NoClash(docs, -1, u)
  {
    ValidatedSignupStorable(vlib, raw);
    StorableAccountSaves(lib, docs, ValidateSignup(vlib, raw).value, id, now, salt);
  }

  /** `login`'s lookup: the first user with the email, or else the first with the username. */
  function LoginTarget(docs: seq<User>, userID: string): (r: Option<nat>)
    ensures r.Some? <==> Taken(docs, ByEmail, userID) || Taken(docs, ByUsername, userID)
    ensures r.Some? ==> r.value < |docs|
    ensures Taken(docs, ByEmail, userID) ==> r == FindOne(docs, ByEmail, userID) && docs[r.value].email == userID
    ensures !Taken(docs, ByEmail, userID) ==> r == FindOne(docs, ByUsername, userID)
    ensures !Taken(docs, ByEmail, userID) && r.Some? ==> docs[r.value].username == userID
  {
    FindOneTaken(docs, ByEmail, userID);
    FindOneTaken(docs, ByUsername, userID);
    match FindOne(docs, ByEmail, userID)
    case Some(i) => Some(i)
    case None => FindOne(docs, ByUsername, userID)
  }

  /** The `ensureExists` gate before `login` lets a body through exactly when login has a user to check. */
  lemma EnsureExistsFindsTarget(docs: seq<User>, b: Body)
    ensures EnsureExists(docs, b).Pass? <==> LoginTarget(docs, Field(b, UserID)).Some?
  {
  }

  /**
   * What a handler did: the response it sent, if any, and whether it went on
   * to throw (an exception the handler catches and only logs).
   */
  datatype Outcome = Outcome(sent: Option<Response>, threw: bool)

  /**
   * `login` with the `return` its unknown-user branch evidently intends: 500 for
   * an unknown user, 400 for a wrong password, otherwise 200 with the found
   * user's own email, username and token.
   */
  function Login(docs: seq<User>, lib: AuthLib, b: Body): (o: Outcome)
    ensures !o.threw && o.sent.Some?
    ensures LoginTarget(docs, Field(b, UserID)).None? ==> o.sent == Some(Text(ServerError, ServerErrorText))
    ensures LoginTarget(docs, Field(b, UserID)).Some? ==>
              var u := docs[LoginTarget(docs, Field(b, UserID)).value];
              o.sent == Some(if lib.compare(Field(b, Password), u.password)
                             then Json(OK, Session(u.email, u.username, TokenFor(lib, u)))
                             else Json(BadRequest, Status(false, InvalidCredentials)))
  {
    match LoginTarget(docs, Field(b, UserID))
    case None => Outcome(Some(Text(ServerError, ServerErrorText)), false)
    case Some(i) =>
      var u := docs[i];
      if !lib.compare(Field(b, Password), u.password) then
        Outcome(Some(Json(BadRequest, Status(false, InvalidCredentials))), false)
      else
        Outcome(Some(Json(OK, Session(u.email, u.username, TokenFor(lib, u)))), false)
  }

  /**
   * `login` as written: the unknown-user branch sends 500 but does not return,
   * so the handler goes on to read `user.password` of `null` and throws.
   */
  function LoginAsWritten(docs: seq<User>, lib: AuthLib, b: Body): (o: Outcome)
    ensures o.sent.Some?
    ensures o.threw <==> !Taken(docs, ByEmail, Field(b, UserID)) && !Taken(docs, ByUsername, Field(b, UserID))
    ensures o.threw ==> o.sent == Some(Text(ServerError, ServerErrorText))
  {
    FindOneTaken(docs, ByEmail, Field(b, UserID));
    FindOneTaken(docs, ByUsername, Field(b, UserID));
    var user := match FindOne(docs, ByEmail, Field(b, UserID))
                case Some(i) => Some(i)
                case None => FindOne(docs, ByUsername, Field(b, UserID));
    var sentEarly: Option<Response> := if user.None? then Some(Text(ServerError, ServerErrorText)) else None;
    match user
    case None => Outcome(sentEarly, true)
    case Some(i) =>
      var u := docs[i];
      if !lib.compare(Field(b, Password), u.password) then
        Outcome(Some(Json(BadRequest, Status(false, InvalidCredentials))), false)
      else
        Outcome(Some(Json(OK, Session(u.email, u.username, TokenFor(lib, u)))), false)
  }

  /** The missing `return`: both versions send the same response, but as written an unknown user also throws. */
  lemma LoginAsWrittenThrows(docs: seq<User>, lib: AuthLib, b: Body)
    ensures LoginAsWritten(docs, lib, b).sent == Login(docs, lib, b).sent
    ensures LoginAsWritten(docs, lib, b).threw <==> LoginTarget(docs, Field(b, UserID)).None?
  {
  }

  /** An empty table and any login attempt exhibit it. */
  lemma LoginAsWrittenThrowsOnEmptyTable(lib: AuthLib, b: Body)
    ensures LoginAsWritten([], lib, b) == Outcome(Some(Text(ServerError, ServerErrorText)), true)
  {
  }

  /** Once a user is appended without clashing, looking up any of its keys finds it. */
  lemma FindAppended(docs: seq<User>, u: User, k: Key)
    requires NoClash(docs, -1, u)
    ensures FindOne(docs + [u], k, KeyOf(u, k)) == Some(|docs|)
  {
    var all := docs + [u];
    assert KeyOf(all[|docs|], k) == KeyOf(u, k);
    forall j | 0 <= j < |docs| ensures KeyOf(all[j], k) != KeyOf(u, k) {
      assert KeysDiffer(docs[j], u);
    }
  }

  /** A login body whose user ID is an appended user's email, with a password matching its hash, yields a token for that user. */
  lemma LoginAfterInsert(docs: seq<User>, lib: AuthLib, u: User, b: Body)
    requires NoClash(docs, -1, u)
    requires Field(b, UserID) == u.email && lib.compare(Field(b, Password), u.password)
    ensures Login(docs + [u], lib, b) == Outcome(Some(Json(OK, Session(u.email, u.username, TokenFor(lib, u)))), false)
  {
    FindAppended(docs, u, ByEmail);
    FindOneTaken(docs + [u], ByEmail, u.email);
  }

  /**
   * The `login` handler alone, after a signup is saved: a body whose user ID is
   * the stored email and whose password is the one signed up with yields a
   * token for that user.
   */
  lemma SignupThenLogin(docs: seq<User>, lib: AuthLib, b: Body, id: UserId, now: int, salt: string)
    requires forall p, s :: lib.compare(p, lib.hash(p, s))
    requires NoClash(docs, -1, NewAccount(lib, b, id, now, salt))
    ensures var u := NewAccount(lib, b, id, now, salt);
            Login(docs + [u], lib, map[UserID := u.email, Password := Field(b, Password)])
            == Outcome(Some(Json(OK, Session(u.email, u.username, TokenFor(lib, u)))), false)
  {
    var u := NewAccount(lib, b, id, now, salt);
    var login := map[UserID := u.email, Password := Field(b, Password)];
    assert Field(login, UserID) == u.email && Field(login, Password) == Field(b, Password);
    LoginAfterInsert(docs, lib, u, login);
  }

  /**
   * The login route `validateLogin, ensureExists, login`: a body whose
   * sanitized user ID finds a user, and whose trimmed password matches that
   * user's hash, passes both gates and logs in as that user.
   */
  lemma LoginRoute(vlib: Library, lib: AuthLib, docs: seq<User>, raw: Body, i: nat)
    requires LoginAcceptable(vlib, raw)
    requires LoginTarget(docs, vlib.escape(Trim(Field(raw, UserID)))) == Some(i)
    requires lib.compare(Trim(Field(raw, Password)), docs[i].password)
    ensures ValidateLogin(vlib, raw).Pass?
    ensures EnsureExists(docs, ValidateLogin(vlib, raw).value).Pass?
    ensures Login(docs, lib, ValidateLogin(vlib, raw).value)
            == Outcome(Some(Json(OK, Session(docs[i].email, docs[i].username, TokenFor(lib, docs[i])))), false)
  {
    LoginValidation(vlib, raw);
    var b := SanitizedLogin(vlib, raw);
    assert Field(b, UserID) == vlib.escape(Trim(Field(raw, UserID)));
    assert Field(b, Password) == Trim(Field(raw, Password));
    EnsureExistsFindsTarget(docs, b);
  }

  /** The account a validated signup body stores, and what its fields hold. */
  lemma SignedUpAccount(vlib: Library, lib: AuthLib, raw: Body, id: UserId, now: int, salt: string)
    requires EscapeKeepsTrimmed(vlib)
    requires ValidateSignup(vlib, raw).Pass?
    ensures var u := NewAccount(lib, ValidateSignup(vlib, raw).value, id, now, salt);
            && u.email == Trim(Field(raw, Email)) && u.email != ""
            && u.username == vlib.escape(Trim(Field(raw, Username)))
            && u.password == lib.hash(Trim(Field(raw, Password)), salt)
            && |Trim(Field(raw, Password))| >= 6
  {
    SignupValidation(vlib, raw);
    SanitizedSignupFields(vlib, raw);
    TrimIdempotent(Field(raw, Email));
    TrimOfTrimmed(vlib.escape(Trim(Field(raw, Username))));
  }

  /**
   * A user appended without clashing logs in through the route with a body
   * whose sanitized user ID is its email, or its username when that is no one's
   * email, and whose trimmed password matches its hash.
   */
  lemma AppendedLogsIn(vlib: Library, lib: AuthLib, docs: seq<User>, u: User, login: Body)
    requires NoClash(docs, -1, u)
    requires LoginAcceptable(vlib, login)
    requires var key := vlib.escape(Trim(Field(login, UserID)));
             key == u.email || (key == u.username && !Taken(docs + [u], ByEmail, u.username))
    requires lib.compare(Trim(Field(login, Password)), u.password)
    ensures ValidateLogin(vlib, login).Pass?
    ensures EnsureExists(docs + [u], ValidateLogin(vlib, login).value).Pass?
    ensures Login(docs + [u], lib, ValidateLogin(vlib, login).value)
            == Outcome(Some(Json(OK, Session(u.email, u.username, TokenFor(lib, u)))), false)
  {
    var key := vlib.escape(Trim(Field(login, UserID)));
    if key == u.email {
      FindAppended(docs, u, ByEmail);
      FindOneTaken(docs + [u], ByEmail, u.email);
    } else {
      FindAppended(docs, u, ByUsername);
    }
    assert LoginTarget(docs + [u], key) == Some(|docs|);
    LoginRoute(vlib, lib, docs + [u], login, |docs|);
  }

  /**
   * Signing up and then logging in through both routes with the email and
   * password as first sent succeeds, provided `escape` leaves the email as it
   * is: the login chain escapes the user ID, the signup email chain does not.
   */
  lemma SignupThenLoginByEmail(vlib: Library, lib: AuthLib, docs: seq<User>, raw: Body, id: UserId, now: int, salt: string)
    requires EscapeKeepsTrimmed(vlib)
    requires forall p, s :: lib.compare(p, lib.hash(p, s))
    requires ValidateSignup(vlib, raw).Pass?
    requires NoClash(docs, -1, NewAccount(lib, ValidateSignup(vlib, raw).value, id, now, salt))
    requires vlib.escape(Trim(Field(raw, Email))) == Trim(Field(raw, Email))
    ensures var u := NewAccount(lib, ValidateSignup(vlib, raw).value, id, now, salt);
            var login := map[UserID := Field(raw, Email), Password := Field(raw, Password)];
            && ValidateLogin(vlib, login).Pass?
            && EnsureExists(docs + [u], ValidateLogin(vlib, login).value).Pass?
            && Login(docs + [u], lib, ValidateLogin(vlib, login).value)
               == Outcome(Some(Json(OK, Session(u.email, u.username, TokenFor(lib, u)))), false)
  {
    var u := NewAccount(lib, ValidateSignup(vlib, raw).value, id, now, salt);
    var login := map[UserID := Field(raw, Email), Password := Field(raw, Password)];
    SignedUpAccount(vlib, lib, raw, id, now, salt);
    assert Field(login, UserID) == Field(raw, Email) && Field(login, Password) == Field(raw, Password);
    AppendedLogsIn(vlib, lib, docs, u, login);
  }

  /**
   * The same with the username as first sent: both chains escape it, so no
   * condition on `escape` is needed, only that no user has it as an email.
   */
  lemma SignupThenLoginByUsername(vlib: Library, lib: AuthLib, docs: seq<User>, raw: Body, id: UserId, now: int, salt: string)
    requires EscapeKeepsTrimmed(vlib)
    requires forall p, s :: lib.compare(p, lib.hash(p, s))
    requires ValidateSignup(vlib, raw).Pass?
    requires var u := NewAccount(lib, ValidateSignup(vlib, raw).value, id, now, salt);
             NoClash(docs, -1, u) && !Taken(docs + [u], ByEmail, u.username)
    ensures var u := NewAccount(lib, ValidateSignup(vlib, raw).value, id, now, salt);
            var login := map[UserID := Field(raw, Username), Password := Field(raw, Password)];
            && ValidateLogin(vlib, login).Pass?
            && EnsureExists(docs + [u], ValidateLogin(vlib, login).value).Pass?
            && Login(docs + [u], lib, ValidateLogin(vlib, login).value)
               == Outcome(Some(Json(OK, Session(u.email, u.username, TokenFor(lib, u)))), false)
  {
    var u := NewAccount(lib, ValidateSignup(vlib, raw).value, id, now, salt);
    var login := map[UserID := Field(raw, Username), Password := Field(raw, Password)];
    SignedUpAccount(vlib, lib, raw, id, now, salt);
    assert Field(login, UserID) == Field(raw, Username) && Field(login, Password) == Field(raw, Password);
    AppendedLogsIn(vlib, lib, docs, u, login);
  }

  /**
   * The other side of that condition: when no user has the escaped email as
   * an email or a username, logging in with the email through the route is
   * refused, by 422 or by `ensureExists`'s 400.
   */
  lemma LoginRouteRefusesEscapedEmail(vlib: Library, docs: seq<User>, email: string, password: string)
    requires IsTrimmed(email)
    requires !Taken(docs, ByEmail, vlib.escape(email)) && !Taken(docs, ByUsername, vlib.escape(email))
    ensures var login := map[UserID := email, Password := password];
            || ValidateLogin(vlib, login).Halt?
            || EnsureExists(docs, ValidateLogin(vlib, login).value) == Halt(Json(BadRequest, Status(false, AccountNotFound)))
  {
    var login := map[UserID := email, Password := password];
    assert Field(login, UserID) == email;
    TrimOfTrimmed(email);
    LoginValidation(vlib, login);
    if ValidateLogin(vlib, login).Pass? {
      assert Field(ValidateLogin(vlib, login).value, UserID) == vlib.escape(email);
    }
  }

  /**
   * In particular, in a collection holding only a user whose email `escape`
   * changes (and not into its username), that user cannot log in by email.
   */
  lemma EscapedEmailAloneRefused(vlib: Library, u: User, password: string)
    requires IsTrimmed(u.email)
    requires vlib.escape(u.email) != u.email && vlib.escape(u.email) != u.username
    ensures var login := map[UserID := u.email, Password := password];
            || ValidateLogin(vlib, login).Halt?
            || EnsureExists([u], ValidateLogin(vlib, login).value) == Halt(Json(BadRequest, Status(false, AccountNotFound)))
  {
    NotTakenBySingle(u, vlib.escape(u.email));
    LoginRouteRefusesEscapedEmail(vlib, [u], u.email, password);
  }

  /** A key that is neither the user's email nor its username is taken by neither in a collection of that user alone. */
  lemma NotTakenBySingle(u: User, key: string)
    requires key != u.email && key != u.username
    ensures !Taken([u], ByEmail, key) && !Taken([u], ByUsername, key)
  {
    assert [u][0] == u;
  }
}
