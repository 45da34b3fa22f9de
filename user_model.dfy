/**
 * The User document: its schema fields, the defaults and setters mongoose applies
 * when one is created, the `required` validators, the gender enum and the two
 * unique keys, and `findOne` over the collection's documents in natural order.
 */
module UserModel {
  import opened Wrappers
  import opened Text

  type UserId = string
  type PostId = string

  /** The `profile.gender` enum; `Unset` is the empty string. */
  datatype Gender = Unset | Male | Female | Other

  const GenderValues: seq<string> := ["", "male", "female", "other"]

  function GenderName(g: Gender): (s: string)
    ensures s in GenderValues
  {
    match g
    case Unset => ""
    case Male => "male"
    case Female => "female"
    case Other => "other"
  }

  /** The enum validator: accepts exactly the four listed strings. */
  function ParseGender(s: string): (r: Option<Gender>)
    ensures r.Some? <==> s in GenderValues
    ensures r.Some? ==> GenderName(r.value) == s
  {
    if s == "" then Some(Unset)
    else if s == "male" then Some(Male)
    else if s == "female" then Some(Female)
    else if s == "other" then Some(Other)
    else None
  }

  lemma GenderRoundTrip(g: Gender)
    ensures ParseGender(GenderName(g)) == Some(g)
  {
  }

  const DefaultAvatar := "https://res.cloudinary.com/dec2xrpad/image/upload/v1594949863/avatar.png"

  datatype Profile = Profile(website: string, bio: string, phoneNumber: Option<string>, gender: Gender)

  /**
   * A stored user. The last four fields are read and written by the mail
   * controller but are not declared by the schema; they are optional here.
   */
  datatype User = User(
    id: UserId,
    username: string,
    name: string,
    email: string,
    password: string,
    createdAt: int,
    avatar: string,
    posts: seq<PostId>,
    followerCount: int,
    followers: seq<UserId>,
    followingCount: int,
    following: seq<UserId>,
    profile: Profile,
    verified: Option<bool>,
    verifiedToken: Option<string>,
    resetPasswordToken: Option<string>,
    githubId: Option<string>)

  predicate CountsAgree(u: User)
  {
    u.followerCount == |u.followers| && u.followingCount == |u.following|
  }

  /**
   * `new User({ email, name, username, password })`: the trim setters run on the
   * three trimmed fields, every other field takes its default. The id and the
   * creation time (`Date.now`) are supplied by the caller.
   */
  function NewUser(id: UserId, createdAt: int, username: string, name: string, email: string, password: string): (u: User)
    ensures u.id == id && u.createdAt == createdAt
    ensures u.username == Trim(username) && u.name == Trim(name) && u.email == Trim(email)
    ensures IsTrimmed(u.username) && IsTrimmed(u.name) && IsTrimmed(u.email)
    ensures u.password == password
    ensures u.avatar == DefaultAvatar
    ensures u.posts == [] && u.followers == [] && u.following == []
    ensures u.followerCount == 0 && u.followingCount == 0 && CountsAgree(u)
    ensures u.profile == Profile("", "", None, Unset)
    ensures u.verified.None? && u.verifiedToken.None? && u.resetPasswordToken.None? && u.githubId.None?
  {
    User(id, Trim(username), Trim(name), Trim(email), password, createdAt, DefaultAvatar,
         [], 0, [], 0, [], Profile("", "", None, Unset),
         None, None, None, None)
  }

  const UsernameRequired := "Username is required"
  const NameRequired := "Name is required"
  const EmailRequired := "Email is required"
  const PasswordRequired := "Password is required"

  /** The four `required` validators pass (mongoose rejects the empty string). */
  predicate SchemaValid(u: User)
  {
    u.username != "" && u.name != "" && u.email != "" && u.password != ""
  }

  /** The messages of the `required` validators that fail, in schema order. */
  function RequiredErrors(u: User): (errs: seq<string>)
    ensures errs == [] <==> SchemaValid(u)
    ensures UsernameRequired in errs <==> u.username == ""
    ensures NameRequired in errs <==> u.name == ""
    ensures EmailRequired in errs <==> u.email == ""
    ensures PasswordRequired in errs <==> u.password == ""
  {
    var a := if u.username == "" then [UsernameRequired] else [];
    var b := if u.name == "" then [NameRequired] else [];
    var c := if u.email == "" then [EmailRequired] else [];
    var d := if u.password == "" then [PasswordRequired] else [];
    assert forall m :: m in a + b + c + d <==> m in a || m in b || m in c || m in d;
    a + b + c + d
  }

  /** A freshly built user passes validation exactly when its required fields are non-blank. */
  lemma NewUserValid(id: UserId, createdAt: int, username: string, name: string, email: string, password: string)
    ensures SchemaValid(NewUser(id, createdAt, username, name, email, password))
            <==> !AllSpace(username) && !AllSpace(name) && !AllSpace(email) && password != ""
  {
  }

  /**
   * What `save()` writes under mongoose's default strict mode: the fields the
   * schema does not declare are dropped.
   */
  function StrictSaved(u: User): (v: User)
    ensures v.verified.None? && v.verifiedToken.None? && v.resetPasswordToken.None? && v.githubId.None?
    ensures v.(verified := u.verified, verifiedToken := u.verifiedToken,
               resetPasswordToken := u.resetPasswordToken, githubId := u.githubId) == u
  {
    u.(verified := None, verifiedToken := None, resetPasswordToken := None, githubId := None)
  }

  /** The truthiness tests the mail controller applies to the undeclared fields. */
  predicate IsVerified(u: User)
  {
    u.verified == Some(true)
  }

  predicate HasVerificationToken(u: User)
  {
    u.verifiedToken.Some? && u.verifiedToken.value != ""
  }

  predicate IsGithubLinked(u: User)
  {
    u.githubId.Some? && u.githubId.value != ""
  }

  /** The keys a query can select on: `_id` and the two unique fields. */
  datatype Key = ById | ByUsername | ByEmail

  function KeyOf(u: User, k: Key): string
  {
    match k
    case ById => u.id
    case ByUsername => u.username
    case ByEmail => u.email
  }

  /** Two documents share no unique key (`_id`, `username`, `email`). */
  predicate KeysDiffer(a: User, b: User)
  {
    a.id != b.id && a.username != b.username && a.email != b.email
  }

  predicate UniqueKeys(docs: seq<User>)
  {
    forall i, j :: 0 <= i < j < |docs| ==> KeysDiffer(docs[i], docs[j])
  }

  /** `findOne({ key: v })`: the position of the first document, in natural order, whose key is v. */
  function FindOne(docs: seq<User>, k: Key, v: string): (r: Option<nat>)
    ensures r.Some? ==> r.value < |docs| && KeyOf(docs[r.value], k) == v
    ensures r.Some? ==> forall j :: 0 <= j < r.value ==> KeyOf(docs[j], k) != v
    ensures r.None? <==> forall j :: 0 <= j < |docs| ==> KeyOf(docs[j], k) != v
  {
    if docs == [] then None
    else if KeyOf(docs[0], k) == v then Some(0)
    else
      match FindOne(docs[1..], k, v)
      case None => None
      case Some(i) => Some(i + 1)
  }

  /** Some document's key is v. */
  predicate Taken(docs: seq<User>, k: Key, v: string)
  {
    exists j :: 0 <= j < |docs| && KeyOf(docs[j], k) == v
  }

  /** `findOne` finds a document exactly when the key is taken. */
  lemma FindOneTaken(docs: seq<User>, k: Key, v: string)
    ensures FindOne(docs, k, v).Some? <==> Taken(docs, k, v)
  {
    if FindOne(docs, k, v).Some? {
      var i := FindOne(docs, k, v).value;
      assert KeyOf(docs[i], k) == v;
    }
  }

  /** With unique keys, the first match is the only match. */
  lemma FindOneUnique(docs: seq<User>, k: Key, i: nat)
    requires UniqueKeys(docs)
    requires i < |docs|
    ensures FindOne(docs, k, KeyOf(docs[i], k)) == Some(i)
  {
  }
}
