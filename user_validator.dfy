/**
 * The request-body validators run before signup and login. Each express-validator
 * `check(param)` chain first applies its sanitizers in order, writing the result
 * back into the body, then its validators in order; `.bail()` after each validator
 * stops the chain at the first failure, so a field reports at most one error.
 * Then two existence checks against the users collection.
 */
module UserValidator {
  import opened Wrappers
  import opened Text
  import opened Http
  import opened UserModel

  /** express-validator's `escape()` sanitizer and `isEmail()` validator, whose internals are not modelled. */
  datatype Library = Library(escape: string -> string, isEmail: string -> bool)

  /** The request-body fields the validators and handlers read. */
  datatype Param = Username | Name | Email | Password | UserID

  function ParamName(p: Param): string
  {
    match p
    case Username => "username"
    case Name => "name"
    case Email => "email"
    case Password => "password"
    case UserID => "userID"
  }

  /** A request body, restricted to those fields; a field that is absent reads as the empty string. */
  type Body = map<Param, string>

  function Field(b: Body, k: Param): string
  {
    if k in b then b[k] else ""
  }

  /** The messages the chains attach with `.withMessage(...)`. */
  datatype Message =
    | UsernameEmpty | UsernameShort | NameEmpty | EmailEmpty | EmailInvalid
    | PasswordEmpty | PasswordShort | UserIdEmpty

  function MessageText(m: Message): string
  {
    match m
    case UsernameEmpty => "Username cannot be empty"
    case UsernameShort => "Username must be at least 3 characters"
    case NameEmpty => "Name cannot be empty"
    case EmailEmpty => "Email cannot be empty"
    case EmailInvalid => "Invalid email"
    case PasswordEmpty => "Password cannot be empty"
    case PasswordShort => "Password must be at least 6 characters"
    case UserIdEmpty => "Username or email cannot be empty"
  }

  /** A failed chain: the field, the message of the validator that failed, the sanitized value. */
  datatype Problem = Problem(param: Param, msg: Message, value: string)

  /** The entry `errors.array()` shows for a problem; only the request body is modelled as a location. */
  function Report(p: Problem): FieldError
  {
    FieldError(ParamName(p.param), MessageText(p.msg), p.value, "body")
  }

  function Reports(ps: seq<Problem>): (r: seq<FieldError>)
    ensures |r| == |ps| && forall i :: 0 <= i < |ps| ==> r[i] == Report(ps[i])
  {
    if ps == [] then [] else [Report(ps[0])] + Reports(ps[1..])
  }

  datatype Sanitizer = TrimSpace | EscapeHtml
  datatype Rule = NotEmpty(msg: Message) | MinLength(min: nat, msg: Message) | IsEmail(msg: Message)
  datatype Chain = Chain(param: Param, sanitizers: seq<Sanitizer>, rules: seq<Rule>)

  function ApplySanitizer(lib: Library, s: Sanitizer, v: string): string
  {
    match s
    case TrimSpace => Trim(v)
    case EscapeHtml => lib.escape(v)
  }

  /** The sanitizers applied left to right. */
  function Sanitize(lib: Library, steps: seq<Sanitizer>, v: string): string
    decreases |steps|
  {
    if steps == [] then v else Sanitize(lib, steps[1..], ApplySanitizer(lib, steps[0], v))
  }

  /** `.not().isEmpty()`, `.isLength({ min })` (counting code points) and `.isEmail()`. */
  predicate Holds(lib: Library, r: Rule, v: string)
  {
    match r
    case NotEmpty(_) => v != ""
    case MinLength(n, _) => |v| >= n
    case IsEmail(_) => lib.isEmail(v)
  }

  /** The position of the first rule the value fails, which is where `.bail()` stops. */
  function FirstFailure(lib: Library, rules: seq<Rule>, v: string): (r: Option<nat>)
    ensures r.Some? ==> r.value < |rules| && !Holds(lib, rules[r.value], v)
    ensures r.Some? ==> forall k :: 0 <= k < r.value ==> Holds(lib, rules[k], v)
    ensures r.None? <==> forall k :: 0 <= k < |rules| ==> Holds(lib, rules[k], v)
  {
    if rules == [] then None
    else if !Holds(lib, rules[0], v) then Some(0)
    else
      match FirstFailure(lib, rules[1..], v)
      case None => None
      case Some(k) => Some(k + 1)
  }

  /** The sanitized value of one field and the single error its chain reports, if any. */
  datatype Checked = Checked(value: string, error: Option<Problem>)

  function Run(lib: Library, c: Chain, raw: string): (r: Checked)
    ensures r.value == Sanitize(lib, c.sanitizers, raw)
    ensures r.error.None? <==> forall k :: 0 <= k < |c.rules| ==> Holds(lib, c.rules[k], r.value)
    ensures r.error.Some? ==> r.error.value.param == c.param && r.error.value.value == r.value
  {
    var v := Sanitize(lib, c.sanitizers, raw);
    match FirstFailure(lib, c.rules, v)
    case None => Checked(v, None)
    case Some(k) => Checked(v, Some(Problem(c.param, c.rules[k].msg, v)))
  }

  function ErrorList(e: Option<Problem>): seq<Problem>
  {
    match e
    case None => []
    case Some(x) => [x]
  }

  /**
   * The chains in order: the collected errors, at most one per chain, and the
   * body with every checked field written back sanitized and every other field
   * passed on as it was.
   */
  function RunAll(lib: Library, chains: seq<Chain>, body: Body): (r: (seq<Problem>, Body))
    ensures |r.0| <= |chains|
    ensures forall i :: 0 <= i < |chains| ==> chains[i].param in r.1
    ensures forall k :: k in r.1 && (forall i :: 0 <= i < |chains| ==> chains[i].param != k)
              ==> k in body && r.1[k] == body[k]
    ensures forall k :: k in body ==> k in r.1
    decreases |chains|
  {
    if chains == [] then ([], body)
    else
      var c := Run(lib, chains[0], Field(body, chains[0].param));
      var rest := RunAll(lib, chains[1..], body[chains[0].param := c.value]);
      (ErrorList(c.error) + rest.0, rest.1)
  }

  /**
   * `validationResult(req)`: status 422 with a non-empty error list, at most one
   * entry per chain, or on to the next handler with the sanitized body, in
   * which every unchecked field is as it was.
   */
  function Validate(lib: Library, chains: seq<Chain>, body: Body): (g: Gate<Body>)
    ensures g.Halt? ==> && g.response.Json? && g.response.status == Unprocessable
                        && g.response.body.Errors? && 0 < |g.response.body.errors| <= |chains|
    ensures g.Pass? ==> forall i :: 0 <= i < |chains| ==> chains[i].param in g.value
    ensures g.Pass? ==> forall k :: k in body && (forall i :: 0 <= i < |chains| ==> chains[i].param != k)
                          ==> k in g.value && g.value[k] == body[k]
  {
    var (errors, clean) := RunAll(lib, chains, body);
    if errors == [] then Pass(clean) else Halt(Json(Unprocessable, Errors(Reports(errors))))
  }

  const UsernameChain := Chain(Username, [TrimSpace, EscapeHtml], [NotEmpty(UsernameEmpty), MinLength(3, UsernameShort)])
  const NameChain := Chain(Name, [TrimSpace, EscapeHtml], [NotEmpty(NameEmpty)])
  const EmailChain := Chain(Email, [TrimSpace], [NotEmpty(EmailEmpty), IsEmail(EmailInvalid)])
  const PasswordChain := Chain(Password, [TrimSpace], [NotEmpty(PasswordEmpty), MinLength(6, PasswordShort)])
  const UserIdChain := Chain(UserID, [TrimSpace, EscapeHtml], [NotEmpty(UserIdEmpty)])

  const SignupChains := [UsernameChain, NameChain, EmailChain, PasswordChain]
  const LoginChains := [UserIdChain, PasswordChain]

  /** The fields the signup and login chains check, in order. */
  lemma ChainParams()
    ensures |SignupChains| == 4 && |LoginChains| == 2
    ensures SignupChains[0].param == Username && SignupChains[1].param == Name
    ensures SignupChains[2].param == Email && SignupChains[3].param == Password
    ensures LoginChains[0].param == UserID && LoginChains[1].param == Password
  {
  }

  /** `validateSignup`: the four signup chains, then `validationResult`. */
  function ValidateSignup(lib: Library, body: Body): (g: Gate<Body>)
    ensures g.Halt? ==> && g.response.Json? && g.response.status == Unprocessable
                        && g.response.body.Errors? && 0 < |g.response.body.errors| <= 4
    ensures g.Pass? ==> Username in g.value && Name in g.value && Email in g.value && Password in g.value
    ensures g.Pass? && UserID in body ==> UserID in g.value && g.value[UserID] == body[UserID]
  {
    ChainParams();
    assert forall i :: 0 <= i < |SignupChains| ==> SignupChains[i].param != UserID;
    Validate(lib, SignupChains, body)
  }

  /** `validateLogin`: the user ID and password chains, then `validationResult`. */
  function ValidateLogin(lib: Library, body: Body): (g: Gate<Body>)
    ensures g.Halt? ==> && g.response.Json? && g.response.status == Unprocessable
                        && g.response.body.Errors? && 0 < |g.response.body.errors| <= 2
    ensures g.Pass? ==> UserID in g.value && Password in g.value
    ensures g.Pass? ==> forall k :: k in body && k != UserID && k != Password ==> k in g.value && g.value[k] == body[k]
  {
    ChainParams();
    Validate(lib, LoginChains, body)
  }

  /** Trim, then escape. */
  lemma SanitizeTrimEscape(lib: Library, raw: string)
    ensures Sanitize(lib, [TrimSpace, EscapeHtml], raw) == lib.escape(Trim(raw))
  {
    assert [TrimSpace, EscapeHtml][1..] == [EscapeHtml];
    assert [EscapeHtml][1..] == [];
  }

  lemma SanitizeTrim(lib: Library, raw: string)
    ensures Sanitize(lib, [TrimSpace], raw) == Trim(raw)
  {
    assert [TrimSpace][1..] == [];
  }

  /** A two-rule chain reports its first rule's failure ahead of its second's. */
  lemma FirstFailureOfTwo(lib: Library, r0: Rule, r1: Rule, v: string)
    ensures FirstFailure(lib, [r0, r1], v)
            == if !Holds(lib, r0, v) then Some(0) else if !Holds(lib, r1, v) then Some(1) else None
  {
    assert [r0, r1][1..] == [r1];
    assert [r1][1..] == [];
  }

  lemma FirstFailureOfOne(lib: Library, r0: Rule, v: string)
    ensures FirstFailure(lib, [r0], v) == if !Holds(lib, r0, v) then Some(0) else None
  {
    assert [r0][1..] == [];
  }

  /** The signup username chain: empty is reported ahead of short, and only one of them. */
  lemma UsernameRule(lib: Library, raw: string)
    ensures var v := lib.escape(Trim(raw));
            Run(lib, UsernameChain, raw)
            == Checked(v, if v == "" then Some(Problem(Username, UsernameEmpty, v))
                          else if |v| < 3 then Some(Problem(Username, UsernameShort, v))
                          else None)
  {
    SanitizeTrimEscape(lib, raw);
    FirstFailureOfTwo(lib, NotEmpty(UsernameEmpty), MinLength(3, UsernameShort), lib.escape(Trim(raw)));
  }

  lemma NameRule(lib: Library, raw: string)
    ensures var v := lib.escape(Trim(raw));
            Run(lib, NameChain, raw)
            == Checked(v, if v == "" then Some(Problem(Name, NameEmpty, v)) else None)
  {
    SanitizeTrimEscape(lib, raw);
    FirstFailureOfOne(lib, NotEmpty(NameEmpty), lib.escape(Trim(raw)));
  }

  /** The email chain: the format is checked only once the trimmed value is non-empty. */
  lemma EmailRule(lib: Library, raw: string)
    ensures var v := Trim(raw);
            Run(lib, EmailChain, raw)
            == Checked(v, if v == "" then Some(Problem(Email, EmailEmpty, v))
                          else if !lib.isEmail(v) then Some(Problem(Email, EmailInvalid, v))
                          else None)
  {
    SanitizeTrim(lib, raw);
    FirstFailureOfTwo(lib, NotEmpty(EmailEmpty), IsEmail(EmailInvalid), Trim(raw));
  }

  /** The password chain, shared by signup and login. */
  lemma PasswordRule(lib: Library, raw: string)
    ensures var v := Trim(raw);
            Run(lib, PasswordChain, raw)
            == Checked(v, if v == "" then Some(Problem(Password, PasswordEmpty, v))
                          else if |v| < 6 then Some(Problem(Password, PasswordShort, v))
                          else None)
  {
    SanitizeTrim(lib, raw);
    FirstFailureOfTwo(lib, NotEmpty(PasswordEmpty), MinLength(6, PasswordShort), Trim(raw));
  }

  lemma UserIdRule(lib: Library, raw: string)
    ensures var v := lib.escape(Trim(raw));
            Run(lib, UserIdChain, raw)
            == Checked(v, if v == "" then Some(Problem(UserID, UserIdEmpty, v)) else None)
  {
    SanitizeTrimEscape(lib, raw);
    FirstFailureOfOne(lib, NotEmpty(UserIdEmpty), lib.escape(Trim(raw)));
  }

  /** What the signup fields must satisfy once trimmed (and, for username and name, escaped). */
  predicate SignupAcceptable(lib: Library, b: Body)
  {
    && |lib.escape(Trim(Field(b, Username)))| >= 3
    && lib.escape(Trim(Field(b, Name))) != ""
    && Trim(Field(b, Email)) != "" && lib.isEmail(Trim(Field(b, Email)))
    && |Trim(Field(b, Password))| >= 6
  }

  /** The body signup sees after the sanitizers have written their results back. */
  function SanitizedSignup(lib: Library, b: Body): Body
  {
    b[Username := lib.escape(Trim(Field(b, Username)))]
     [Name := lib.escape(Trim(Field(b, Name)))]
     [Email := Trim(Field(b, Email))]
     [Password := Trim(Field(b, Password))]
  }

  /** What each signup field of the sanitized body holds. */
  lemma SanitizedSignupFields(lib: Library, b: Body)
    ensures Field(SanitizedSignup(lib, b), Username) == lib.escape(Trim(Field(b, Username)))
    ensures Field(SanitizedSignup(lib, b), Name) == lib.escape(Trim(Field(b, Name)))
    ensures Field(SanitizedSignup(lib, b), Email) == Trim(Field(b, Email))
    ensures Field(SanitizedSignup(lib, b), Password) == Trim(Field(b, Password))
  {
  }

  lemma RunAllCons(lib: Library, c: Chain, rest: seq<Chain>, body: Body)
    ensures var r := Run(lib, c, Field(body, c.param));
            var t := RunAll(lib, rest, body[c.param := r.value]);
            RunAll(lib, [c] + rest, body) == (ErrorList(r.error) + t.0, t.1)
  {
    assert ([c] + rest)[1..] == rest;
  }

  /** Two chains on different fields each read their field of the original body. */
  lemma RunAllPair(lib: Library, c1: Chain, c2: Chain, body: Body)
    requires c1.param != c2.param
    ensures var r1 := Run(lib, c1, Field(body, c1.param));
            var r2 := Run(lib, c2, Field(body, c2.param));
            RunAll(lib, [c1, c2], body)
            == (ErrorList(r1.error) + ErrorList(r2.error), body[c1.param := r1.value][c2.param := r2.value])
  {
    var r1 := Run(lib, c1, Field(body, c1.param));
    var b1 := body[c1.param := r1.value];
    var r2 := Run(lib, c2, Field(b1, c2.param));
    var b2 := b1[c2.param := r2.value];
    assert Field(b1, c2.param) == Field(body, c2.param);
    assert [c1, c2] == [c1] + [c2];
    assert [c2] == [c2] + [];
    assert RunAll(lib, [], b2) == ([], b2);
    RunAllCons(lib, c2, [], b1);
    assert ErrorList(r2.error) + [] == ErrorList(r2.error);
    RunAllCons(lib, c1, [c2], body);
  }

  /** The errors of the signup chains, one list per field, in field order. */
  function SignupErrors(lib: Library, b: Body): seq<Problem>
  {
    ErrorList(Run(lib, UsernameChain, Field(b, Username)).error)
    + ErrorList(Run(lib, NameChain, Field(b, Name)).error)
    + ErrorList(Run(lib, EmailChain, Field(b, Email)).error)
    + ErrorList(Run(lib, PasswordChain, Field(b, Password)).error)
  }

  /** Three chains on different fields each read their field of the original body. */
  lemma RunAllTriple(lib: Library, c1: Chain, c2: Chain, c3: Chain, body: Body)
    requires c1.param != c2.param && c1.param != c3.param && c2.param != c3.param
    ensures var r1 := Run(lib, c1, Field(body, c1.param));
            var r2 := Run(lib, c2, Field(body, c2.param));
            var r3 := Run(lib, c3, Field(body, c3.param));
            RunAll(lib, [c1, c2, c3], body)
            == (ErrorList(r1.error) + (ErrorList(r2.error) + ErrorList(r3.error)),
                body[c1.param := r1.value][c2.param := r2.value][c3.param := r3.value])
  {
    var r1 := Run(lib, c1, Field(body, c1.param));
    var b1 := body[c1.param := r1.value];
    assert Field(b1, c2.param) == Field(body, c2.param) && Field(b1, c3.param) == Field(body, c3.param);
    assert [c1, c2, c3] == [c1] + [c2, c3];
    RunAllCons(lib, c1, [c2, c3], body);
    RunAllPair(lib, c2, c3, b1);
  }

  /** Four chains on different fields each read their field of the original body. */
  lemma RunAllFour(lib: Library, c1: Chain, c2: Chain, c3: Chain, c4: Chain, body: Body)
    requires c1.param != c2.param && c1.param != c3.param && c1.param != c4.param
    requires c2.param != c3.param && c2.param != c4.param && c3.param != c4.param
    ensures var r1 := Run(lib, c1, Field(body, c1.param));
            var r2 := Run(lib, c2, Field(body, c2.param));
            var r3 := Run(lib, c3, Field(body, c3.param));
            var r4 := Run(lib, c4, Field(body, c4.param));
            RunAll(lib, [c1, c2, c3, c4], body)
            == (ErrorList(r1.error) + (ErrorList(r2.error) + (ErrorList(r3.error) + ErrorList(r4.error))),
                body[c1.param := r1.value][c2.param := r2.value][c3.param := r3.value][c4.param := r4.value])
  {
    var r1 := Run(lib, c1, Field(body, c1.param));
    var b1 := body[c1.param := r1.value];
    assert Field(b1, c2.param) == Field(body, c2.param) && Field(b1, c3.param) == Field(body, c3.param)
        && Field(b1, c4.param) == Field(body, c4.param);
    assert [c1, c2, c3, c4] == [c1] + [c2, c3, c4];
    RunAllCons(lib, c1, [c2, c3, c4], body);
    RunAllTriple(lib, c2, c3, c4, b1);
  }

  /** The values the signup chains write back. */
  lemma SignupValues(lib: Library, b: Body)
    ensures Run(lib, UsernameChain, Field(b, Username)).value == lib.escape(Trim(Field(b, Username)))
    ensures Run(lib, NameChain, Field(b, Name)).value == lib.escape(Trim(Field(b, Name)))
    ensures Run(lib, EmailChain, Field(b, Email)).value == Trim(Field(b, Email))
    ensures Run(lib, PasswordChain, Field(b, Password)).value == Trim(Field(b, Password))
  {
    SanitizeTrimEscape(lib, Field(b, Username));
    SanitizeTrimEscape(lib, Field(b, Name));
    SanitizeTrim(lib, Field(b, Email));
    SanitizeTrim(lib, Field(b, Password));
  }

  lemma ConcatFour<T>(a: seq<T>, b: seq<T>, c: seq<T>, d: seq<T>)
    ensures a + (b + (c + d)) == a + b + c + d
  {
  }

  /** The signup chains each read their own field of the original body. */
  lemma SignupRunAll(lib: Library, b: Body)
    ensures RunAll(lib, [UsernameChain, NameChain, EmailChain, PasswordChain], b)
            == (SignupErrors(lib, b), SanitizedSignup(lib, b))
  {
    RunAllFour(lib, UsernameChain, NameChain, EmailChain, PasswordChain, b);
    ConcatFour(ErrorList(Run(lib, UsernameChain, Field(b, Username)).error),
               ErrorList(Run(lib, NameChain, Field(b, Name)).error),
               ErrorList(Run(lib, EmailChain, Field(b, Email)).error),
               ErrorList(Run(lib, PasswordChain, Field(b, Password)).error));
    SignupValues(lib, b);
  }

  lemma SignupShape(lib: Library, b: Body)
    ensures ValidateSignup(lib, b)
            == if SignupErrors(lib, b) == [] then Pass(SanitizedSignup(lib, b))
               else Halt(Json(Unprocessable, Errors(Reports(SignupErrors(lib, b)))))
  {
    SignupRunAll(lib, b);
  }

  /** Four error lists concatenate to nothing exactly when none of them holds an error. */
  lemma NoErrorsFour(a: Option<Problem>, b: Option<Problem>, c: Option<Problem>, d: Option<Problem>)
    ensures ErrorList(a) + ErrorList(b) + ErrorList(c) + ErrorList(d) == []
            <==> a.None? && b.None? && c.None? && d.None?
  {
  }

  lemma UsernameAccepted(lib: Library, raw: string)
    ensures Run(lib, UsernameChain, raw).error.None? <==> |lib.escape(Trim(raw))| >= 3
  {
    UsernameRule(lib, raw);
  }

  lemma NameAccepted(lib: Library, raw: string)
    ensures Run(lib, NameChain, raw).error.None? <==> lib.escape(Trim(raw)) != ""
  {
    NameRule(lib, raw);
  }

  lemma EmailAccepted(lib: Library, raw: string)
    ensures Run(lib, EmailChain, raw).error.None? <==> Trim(raw) != "" && lib.isEmail(Trim(raw))
  {
    EmailRule(lib, raw);
  }

  lemma PasswordAccepted(lib: Library, raw: string)
    ensures Run(lib, PasswordChain, raw).error.None? <==> |Trim(raw)| >= 6
  {
    PasswordRule(lib, raw);
  }

  lemma SignupErrorsEmpty(lib: Library, b: Body)
    ensures SignupErrors(lib, b) == [] <==> SignupAcceptable(lib, b)
  {
    NoErrorsFour(Run(lib, UsernameChain, Field(b, Username)).error,
                 Run(lib, NameChain, Field(b, Name)).error,
                 Run(lib, EmailChain, Field(b, Email)).error,
                 Run(lib, PasswordChain, Field(b, Password)).error);
    UsernameAccepted(lib, Field(b, Username));
    NameAccepted(lib, Field(b, Name));
    EmailAccepted(lib, Field(b, Email));
    PasswordAccepted(lib, Field(b, Password));
  }

  /** Signup validation: the input proceeds exactly when every field is acceptable, sanitized;
      otherwise 422 lists one error per failing field, in field order. */
  lemma SignupValidation(lib: Library, b: Body)
    ensures ValidateSignup(lib, b).Pass? <==> SignupAcceptable(lib, b)
    ensures ValidateSignup(lib, b).Pass? ==> ValidateSignup(lib, b).value == SanitizedSignup(lib, b)
    ensures ValidateSignup(lib, b).Halt? ==>
              ValidateSignup(lib, b).response == Json(Unprocessable, Errors(Reports(SignupErrors(lib, b))))
  {
    SignupShape(lib, b);
    SignupErrorsEmpty(lib, b);
  }

  predicate LoginAcceptable(lib: Library, b: Body)
  {
    lib.escape(Trim(Field(b, UserID))) != "" && |Trim(Field(b, Password))| >= 6
  }

  function SanitizedLogin(lib: Library, b: Body): Body
  {
    b[UserID := lib.escape(Trim(Field(b, UserID)))][Password := Trim(Field(b, Password))]
  }

  function LoginErrors(lib: Library, b: Body): seq<Problem>
  {
    ErrorList(Run(lib, UserIdChain, Field(b, UserID)).error)
    + ErrorList(Run(lib, PasswordChain, Field(b, Password)).error)
  }

  /** Login validation passes the sanitized body on exactly when no chain failed. */
  lemma LoginShape(lib: Library, b: Body)
    ensures ValidateLogin(lib, b)
            == if LoginErrors(lib, b) == [] then Pass(SanitizedLogin(lib, b))
               else Halt(Json(Unprocessable, Errors(Reports(LoginErrors(lib, b)))))
  {
    RunAllPair(lib, UserIdChain, PasswordChain, b);
    SanitizeTrimEscape(lib, Field(b, UserID));
    SanitizeTrim(lib, Field(b, Password));
  }

  lemma LoginErrorsEmpty(lib: Library, b: Body)
    ensures LoginErrors(lib, b) == [] <==> LoginAcceptable(lib, b)
  {
    UserIdRule(lib, Field(b, UserID));
    PasswordRule(lib, Field(b, Password));
  }

  /** Login validation, in the same shape as signup validation. */
  lemma LoginValidation(lib: Library, b: Body)
    ensures ValidateLogin(lib, b).Pass? <==> LoginAcceptable(lib, b)
    ensures ValidateLogin(lib, b).Pass? ==> ValidateLogin(lib, b).value == SanitizedLogin(lib, b)
    ensures ValidateLogin(lib, b).Halt? ==>
              ValidateLogin(lib, b).response == Json(Unprocessable, Errors(Reports(LoginErrors(lib, b))))
  {
    LoginShape(lib, b);
    LoginErrorsEmpty(lib, b);
  }

  const EmailTaken := "The email already exists"
  const UsernameTaken := "The username already exists"
  const AccountNotFound := "Username or email not found.  Please create an account."

  /**
   * `ensureDoesntExist`: signup goes on only when neither the email nor the
   * username is taken; a taken email is reported ahead of a taken username.
   */
  function EnsureDoesntExist(docs: seq<User>, b: Body): (g: Gate<Body>)
    ensures g.Pass? <==> !Taken(docs, ByEmail, Field(b, Email)) && !Taken(docs, ByUsername, Field(b, Username))
    ensures g.Pass? ==> g.value == b
    ensures Taken(docs, ByEmail, Field(b, Email)) ==> g == Halt(Json(Unprocessable, Status(false, EmailTaken)))
    ensures !Taken(docs, ByEmail, Field(b, Email)) && Taken(docs, ByUsername, Field(b, Username))
            ==> g == Halt(Json(Unprocessable, Status(false, UsernameTaken)))
  {
    FindOneTaken(docs, ByEmail, Field(b, Email));
    FindOneTaken(docs, ByUsername, Field(b, Username));
    var emailExists := FindOne(docs, ByEmail, Field(b, Email));
    var usernameExists := FindOne(docs, ByUsername, Field(b, Username));
    if emailExists.Some? then Halt(Json(Unprocessable, Status(false, EmailTaken)))
    else if usernameExists.Some? then Halt(Json(Unprocessable, Status(false, UsernameTaken)))
    else Pass(b)
  }

  /** `ensureExists`: login goes on exactly when the user ID is some user's email or username. */
  function EnsureExists(docs: seq<User>, b: Body): (g: Gate<Body>)
    ensures g.Pass? <==> Taken(docs, ByEmail, Field(b, UserID)) || Taken(docs, ByUsername, Field(b, UserID))
    ensures g.Pass? ==> g.value == b
    ensures g.Halt? ==> g.response == Json(BadRequest, Status(false, AccountNotFound))
  {
    FindOneTaken(docs, ByEmail, Field(b, UserID));
    FindOneTaken(docs, ByUsername, Field(b, UserID));
    var emailExists := FindOne(docs, ByEmail, Field(b, UserID));
    var usernameExists := FindOne(docs, ByUsername, Field(b, UserID));
    if emailExists.None? && usernameExists.None? then Halt(Json(BadRequest, Status(false, AccountNotFound)))
    else Pass(b)
  }
}
