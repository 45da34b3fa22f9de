/**
 * The mail controller: asking for a verification token, confirming it, and
 * asking for a password-reset token. Each handler looks a user up, runs its
 * guards in a fixed order, writes one token field of that user and saves it,
 * then hands a mail to the transport. What the transport does with the mail
 * is an input (`delivered`): on success the handler answers 200, on failure it
 * sends nothing.
 */
module MailController {
  import opened Wrappers
  import opened Text
  import opened Http
  import opened UserModel
  import opened UserStore
  import opened Tokens

  /** The environment variables the controller reads. */
  datatype Env = Env(nodeEnv: Option<string>, productionUrl: Option<string>, emailUser: Option<string>)

  const LocalOrigin := "http://localhost:3000"

  /** A template literal shows an unset variable as "undefined". */
  function ProductionOrigin(env: Env): string
  {
    if env.productionUrl.Some? then env.productionUrl.value else "undefined"
  }

  function Origin(env: Env): string
  {
    if env.nodeEnv == Some("development") then LocalOrigin else ProductionOrigin(env)
  }

  /** The text after the last '/', which is what an Express `/:token` route parameter receives. */
  function LastSegment(s: string): (r: string)
    ensures |r| <= |s| && r == s[|s| - |r|..] && '/' !in r
    ensures |r| < |s| ==> s[|s| - |r| - 1] == '/'
  {
    if s == [] then []
    else if s[|s| - 1] == '/' then []
    else LastSegment(s[..|s| - 1]) + [s[|s| - 1]]
  }

  /** Whatever precedes a path ending in '/', the segment after it is read back whole. */
  lemma {:induction false} LastSegmentAfterSlash(origin: string, path: string, t: string)
    requires |path| > 0 && path[|path| - 1] == '/' && '/' !in t
    ensures LastSegment(origin + path + t) == t
    decreases |t|
  {
    var s := origin + path + t;
    if t == [] {
      assert s[|s| - 1] == '/';
    } else {
      var c := t[|t| - 1];
      var shorter := t[..|t| - 1];
      assert s[..|s| - 1] == origin + path + shorter;
      LastSegmentAfterSlash(origin, path, shorter);
      assert s[|s| - 1] == c;
      assert shorter + [c] == t;
    }
  }

  const VerifyPath := "/verify/"
  const ResetPath := "/reset-password/"

  /** The verification link mailed to the user; the token is its last path segment. */
  function VerifyLink(env: Env, token: string): (l: string)
    ensures env.nodeEnv == Some("development") ==> l == LocalOrigin + VerifyPath + token
    ensures env.nodeEnv != Some("development") ==> l == ProductionOrigin(env) + VerifyPath + token
    ensures '/' !in token ==> LastSegment(l) == token
  {
    var l := Origin(env) + VerifyPath + token;
    if '/' in token then l else LastSegmentAfterSlash(Origin(env), VerifyPath, token); l
  }

  /** The password-reset link, in the same pattern. */
  function ResetLink(env: Env, token: string): (l: string)
    ensures env.nodeEnv == Some("development") ==> l == LocalOrigin + ResetPath + token
    ensures env.nodeEnv != Some("development") ==> l == ProductionOrigin(env) + ResetPath + token
    ensures '/' !in token ==> LastSegment(l) == token
  {
    var l := Origin(env) + ResetPath + token;
    if '/' in token then l else LastSegmentAfterSlash(Origin(env), ResetPath, token); l
  }

  /** The mail options handed to the transport. */
  datatype Mail = Mail(from: Option<string>, to: string, subject: string, text: string)

  /** Both mails carry this subject, the reset mail included. */
  const Subject := "Becoming Verified"

  /** The `n` characters of `text` from position `i`. */
  function Window(text: string, i: nat, n: nat): string
    requires i + n <= |text|
  {
    text[i..i + n]
  }

  predicate Contains(text: string, part: string)
  {
    exists i: nat :: i + |part| <= |text| && Window(text, i, |part|) == part
  }

  /** A mail text built around a link contains it. */
  lemma ContainsMiddle(a: string, link: string, b: string)
    ensures Contains(a + link + b, link)
  {
    var text := a + link + b;
    assert Window(text, |a|, |link|) == link;
  }

  /** The text before the link in each mail, and the text after it. */
  const VerificationIntro :=
    "You are receiving this message because you requested user verification on the account associated with this email.\n\n"
    + "Please click on the following link, or paste it into your browser to become verified:\n\n"
  const ResetIntro :=
    "You are receiving this message because you requested the reset of the password for your account.\n\n"
    + "Please click on the following link, or paste it into your browser:\n\n"
  const MailClosing := " \n\n" + "If you did not request this, please ignore this email.\n"

  function VerificationMail(env: Env, to: string, link: string): (m: Mail)
    ensures m.from == env.emailUser && m.to == to && m.subject == Subject
    ensures Contains(m.text, link)
  {
    ContainsMiddle(VerificationIntro, link, MailClosing);
    Mail(env.emailUser, to, Subject, VerificationIntro + link + MailClosing)
  }

  function ResetMail(env: Env, to: string, link: string): (m: Mail)
    ensures m.from == env.emailUser && m.to == to && m.subject == Subject
    ensures Contains(m.text, link)
  {
    ContainsMiddle(ResetIntro, link, MailClosing);
    Mail(env.emailUser, to, Subject, ResetIntro + link + MailClosing)
  }

  /** Where a user stands in verification, as the controller's truthiness tests see it. */
  datatype Verification = Unverified | Pending(token: string) | Verified

  function StateOf(u: User): (s: Verification)
    ensures s == Verified <==> IsVerified(u)
    ensures s.Pending? <==> !IsVerified(u) && HasVerificationToken(u)
    ensures s.Pending? ==> Some(s.token) == u.verifiedToken && s.token != ""
  {
    if IsVerified(u) then Verified
    else if HasVerificationToken(u) then Pending(u.verifiedToken.value)
    else Unverified
  }

  /** `v` is `u` except, at most, for `verified` and `verifiedToken`. */
  predicate OnlyVerificationChanged(u: User, v: User)
  {
    v.(verified := u.verified, verifiedToken := u.verifiedToken) == u
  }

  /** `v` is `u` except, at most, for `resetPasswordToken`. */
  predicate OnlyResetChanged(u: User, v: User)
  {
    v.(resetPasswordToken := u.resetPasswordToken) == u
  }

  const EmailIncorrect := "The email address is incorrect."
  const VerificationSent := "Verification email sent."
  const AlreadyVerified := "You are already verified."
  const NotRequested := "You have not requested to become verified."
  const WrongToken := "Token is wrong or expired.  Please request to become verified again."
  const NowVerified := "You are now verified."
  const ResetEmailRequired := "An email address is required."
  const ResetUserNotFound := "A user with that email was not found."
  const GithubAccount := "The password cannot be reset because this account is connected with Github."
  const ResetSentTo := "Reset password email sent to "

  /**
   * A query on `email` is cast through the path's `trim` setter, so the
   * controller's lookups see the request's email trimmed; the stored emails are
   * trimmed already.
   */
  function QueryEmail(email: string): (q: string)
    ensures IsTrimmed(q) && |q| <= |email|
  {
    Trim(email)
  }

  /** `requestVerification`'s lookup: the first user with the email, provided it is the requester. */
  function RequestTarget(docs: seq<User>, requester: UserId, email: string): (r: Option<nat>)
    ensures var found := FindOne(docs, ByEmail, QueryEmail(email));
            r.Some? <==> found.Some? && docs[found.value].id == requester
    ensures r.Some? ==> r == FindOne(docs, ByEmail, QueryEmail(email))
    ensures r.Some? ==> r.value < |docs| && docs[r.value].email == QueryEmail(email) && docs[r.value].id == requester
  {
    match FindOne(docs, ByEmail, QueryEmail(email))
    case None => None
    case Some(i) => if docs[i].id == requester then Some(i) else None
  }

  /** With unique emails, the request is refused exactly when the requester does not own the email. */
  lemma RequestTargetOwner(docs: seq<User>, requester: UserId, email: string)
    requires UniqueKeys(docs)
    ensures RequestTarget(docs, requester, email).Some?
            <==> exists j :: 0 <= j < |docs| && docs[j].email == QueryEmail(email) && docs[j].id == requester
  {
    if j :| 0 <= j < |docs| && docs[j].email == QueryEmail(email) && docs[j].id == requester {
      FindOneUnique(docs, ByEmail, j);
    }
  }

  /** The user once `verifiedToken` holds `token`. */
  function Requested(u: User, token: string): (v: User)
    ensures v.verifiedToken == Some(token) && OnlyVerificationChanged(u, v) && v.verified == u.verified
    ensures token != "" ==> StateOf(v) == if IsVerified(u) then Verified else Pending(token)
  {
    u.(verifiedToken := Some(token))
  }

  /** `confirmVerification`'s guards, in order, and the update they let through. */
  function Confirm(u: User, token: string): (r: Result<User, HttpError>)
    ensures StateOf(u) == Verified ==> r == Failure(HttpError(AlreadyVerified, BadRequest))
    ensures StateOf(u) == Unverified ==> r == Failure(HttpError(NotRequested, BadRequest))
    ensures StateOf(u).Pending? && StateOf(u).token != token ==> r == Failure(HttpError(WrongToken, Unauthorized))
    ensures r.Success? <==> StateOf(u) == Pending(token)
    ensures r.Success? ==> StateOf(r.value) == Verified && r.value.verifiedToken.None?
    ensures r.Success? ==> OnlyVerificationChanged(u, r.value)
  {
    if IsVerified(u) then Failure(HttpError(AlreadyVerified, BadRequest))
    else if !HasVerificationToken(u) then Failure(HttpError(NotRequested, BadRequest))
    else if u.verifiedToken.value != token then Failure(HttpError(WrongToken, Unauthorized))
    else Success(u.(verified := Some(true), verifiedToken := None))
  }

  /** A confirmed user cannot confirm again, with any token. */
  lemma ConfirmTwice(u: User, token: string, again: string)
    requires Confirm(u, token).Success?
    ensures Confirm(Confirm(u, token).value, again) == Failure(HttpError(AlreadyVerified, BadRequest))
  {
  }

  /** An unverified user who asked for a token confirms with exactly that token. */
  lemma RequestThenConfirm(u: User, token: string, given: string)
    requires !IsVerified(u) && token != ""
    ensures Confirm(Requested(u, token), given).Success? <==> given == token
    ensures given != token ==> Confirm(Requested(u, token), given) == Failure(HttpError(WrongToken, Unauthorized))
  {
  }

  /** Asking again replaces the earlier token, which then no longer confirms. */
  lemma NewTokenReplacesOld(u: User, first: string, second: string)
    requires !IsVerified(u) && first != "" && second != "" && first != second
    ensures Confirm(Requested(Requested(u, first), second), first) == Failure(HttpError(WrongToken, Unauthorized))
  {
  }

  /**
   * As deployed, the schema does not declare `verifiedToken` or `verified`, so
   * the token a request stores never reaches the stored document and the
   * confirmation that follows is always refused.
   */
  lemma StrictModeNeverConfirms(u: User, token: string, given: string)
    ensures Confirm(StrictSaved(Requested(u, token)), given) == Failure(HttpError(NotRequested, BadRequest))
  {
  }

  /**
   * `forgotPassword`'s guards, in order: a missing email (tested on the request
   * as sent), an unknown email, a GitHub account.
   */
  function ResetTarget(docs: seq<User>, email: string): (r: Result<nat, HttpError>)
    ensures email == "" ==> r == Failure(HttpError(ResetEmailRequired, BadRequest))
    ensures email != "" && !Taken(docs, ByEmail, QueryEmail(email)) ==> r == Failure(HttpError(ResetUserNotFound, NotFound))
    ensures email != "" && Taken(docs, ByEmail, QueryEmail(email)) ==>
              r.Failure? == IsGithubLinked(docs[FindOne(docs, ByEmail, QueryEmail(email)).value])
    ensures r.Failure? && email != "" && Taken(docs, ByEmail, QueryEmail(email)) ==> r == Failure(HttpError(GithubAccount, Forbidden))
    ensures r.Success? ==> r == Success(FindOne(docs, ByEmail, QueryEmail(email)).value) && r.value < |docs|
    ensures r.Success? ==> docs[r.value].email == QueryEmail(email) && !IsGithubLinked(docs[r.value])
  {
    FindOneTaken(docs, ByEmail, QueryEmail(email));
    if email == "" then Failure(HttpError(ResetEmailRequired, BadRequest))
    else
      match FindOne(docs, ByEmail, QueryEmail(email))
      case None => Failure(HttpError(ResetUserNotFound, NotFound))
      case Some(i) =>
        if IsGithubLinked(docs[i]) then Failure(HttpError(GithubAccount, Forbidden)) else Success(i)
  }

  /** White space around a non-empty email changes neither lookup. */
  lemma PaddedEmailLookups(docs: seq<User>, requester: UserId, p: string, email: string, q: string)
    requires AllSpace(p) && AllSpace(q) && IsTrimmed(email) && email != ""
    ensures RequestTarget(docs, requester, p + email + q) == RequestTarget(docs, requester, email)
    ensures ResetTarget(docs, p + email + q) == ResetTarget(docs, email)
  {
    TrimPadded(p, email, q);
    TrimOfTrimmed(email);
    assert |p + email + q| >= |email|;
  }

  /** Nor is `githubId` declared: over documents saved under strict mode the GitHub refusal never happens. */
  lemma StrictModeNoGithubRefusal(docs: seq<User>, email: string)
    requires forall j :: 0 <= j < |docs| ==> docs[j] == StrictSaved(docs[j])
    ensures ResetTarget(docs, email) != Failure(HttpError(GithubAccount, Forbidden))
  {
    if email != "" && Taken(docs, ByEmail, QueryEmail(email)) {
      var i := FindOne(docs, ByEmail, QueryEmail(email)).value;
      assert docs[i] == StrictSaved(docs[i]);
    }
  }

  /** The user once `resetPasswordToken` holds `token`; verification is untouched. */
  function WithResetToken(u: User, token: string): (v: User)
    ensures v.resetPasswordToken == Some(token) && OnlyResetChanged(u, v) && StateOf(v) == StateOf(u)
  {
    u.(resetPasswordToken := Some(token))
  }

  /**
   * `requestVerification`: refused with 403 unless the first user with the email
   * is the requester; otherwise only that user's `verifiedToken` changes, to a
   * fresh token, and the verification mail goes to that user.
   */
  method RequestVerification(store: Users, env: Env, requester: UserId, email: string,
                             random: seq<Byte>, delivered: bool)
    returns (resp: Response, mail: Option<Mail>)
    requires store.Valid() && |random| == TokenBytes
    modifies store
    ensures store.Valid()
    ensures RequestTarget(old(store.docs), requester, email).None? ==>
              && resp == Json(Forbidden, Status(false, EmailIncorrect))
              && mail.None? && store.docs == old(store.docs)
    ensures RequestTarget(old(store.docs), requester, email).Some? ==>
              var i := RequestTarget(old(store.docs), requester, email).value;
              var u := old(store.docs)[i];
              && store.docs == old(store.docs)[i := Requested(u, Token(random))]
              && mail == Some(VerificationMail(env, u.email, VerifyLink(env, Token(random))))
              && resp == if delivered then Json(OK, Status(true, VerificationSent)) else Silent
  {
    var target := RequestTarget(store.docs, requester, email);
    if target.None? {
      resp, mail := Json(Forbidden, Status(false, EmailIncorrect)), None;
      return;
    }
    var i := target.value;
    var u := store.docs[i];
    var token := Token(random);
    var v := Requested(u, token);
    SameKeysNoClash(store.docs, i, v);
    var ok := store.Save(i, v);
    assert ok;
    mail := Some(VerificationMail(env, u.email, VerifyLink(env, token)));
    resp := if delivered then Json(OK, Status(true, VerificationSent)) else Silent;
  }

  /**
   * `confirmVerification` for the authenticated user: a user that no longer
   * exists makes the handler throw (500); a failed guard is passed to `next`
   * with the store untouched; otherwise the user becomes verified.
   */
  method ConfirmVerification(store: Users, requester: UserId, token: string) returns (resp: Response)
    requires store.Valid()
    modifies store
    ensures store.Valid()
    ensures FindOne(old(store.docs), ById, requester).None? ==>
              resp == Forward(Caught(ServerError)) && store.docs == old(store.docs)
    ensures FindOne(old(store.docs), ById, requester).Some? ==>
              var i := FindOne(old(store.docs), ById, requester).value;
              match Confirm(old(store.docs)[i], token)
              case Failure(e) => resp == Forward(e) && store.docs == old(store.docs)
              case Success(v) => resp == Json(OK, Status(true, NowVerified)) && store.docs == old(store.docs)[i := v]
  {
    var found := FindOne(store.docs, ById, requester);
    if found.None? {
      resp := Forward(Caught(ServerError));
      return;
    }
    var i := found.value;
    var checked := Confirm(store.docs[i], token);
    if checked.Failure? {
      resp := Forward(checked.error);
      return;
    }
    var v := checked.value;
    SameKeysNoClash(store.docs, i, v);
    var ok := store.Save(i, v);
    assert ok;
    resp := Json(OK, Status(true, NowVerified));
  }

  /**
   * `forgotPassword`: the guards of `ResetTarget`, each passed to `next` with the
   * store untouched; otherwise only the user's `resetPasswordToken` changes and
   * the reset mail goes to that user.
   */
  method ForgotPassword(store: Users, env: Env, email: string, random: seq<Byte>, delivered: bool)
    returns (resp: Response, mail: Option<Mail>)
    requires store.Valid() && |random| == TokenBytes
    modifies store
    ensures store.Valid()
    ensures ResetTarget(old(store.docs), email).Failure? ==>
              && resp == Forward(ResetTarget(old(store.docs), email).error)
              && mail.None? && store.docs == old(store.docs)
    ensures ResetTarget(old(store.docs), email).Success? ==>
              var i := ResetTarget(old(store.docs), email).value;
              var u := old(store.docs)[i];
              && store.docs == old(store.docs)[i := WithResetToken(u, Token(random))]
              && mail == Some(ResetMail(env, u.email, ResetLink(env, Token(random))))
              && resp == if delivered then Json(OK, Status(true, ResetSentTo + email)) else Silent
  {
    var target := ResetTarget(store.docs, email);
    if target.Failure? {
      resp, mail := Forward(target.error), None;
      return;
    }
    var i := target.value;
    var u := store.docs[i];
    var token := Token(random);
    var v := WithResetToken(u, token);
    SameKeysNoClash(store.docs, i, v);
    var ok := store.Save(i, v);
    assert ok;
    mail := Some(ResetMail(env, u.email, ResetLink(env, token)));
    resp := if delivered then Json(OK, Status(true, ResetSentTo + email)) else Silent;
  }
}
