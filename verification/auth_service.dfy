/**
 * Registration and login. The users table is a sequence of records; the
 * password encoder and the token issuer are functions given by the caller.
 */
module AuthService {
  import opened Base
  import opened JavaString
  import opened Entities
  import opened Errors
  import opened Validation

  /** The password encoder: `encode` and `matches(raw, encoded)`. */
  datatype Encoder = Encoder(encode: Option<string> -> string, matches: (Option<string>, string) -> bool)

  /** `findByUsername`: the position of the user with that name. */
  function FindByUsername(users: seq<User>, name: Option<string>): (r: Option<nat>)
    ensures r.Some? ==> r.value < |users| && Some(users[r.value].username) == name
    ensures r.None? <==> forall i :: 0 <= i < |users| ==> Some(users[i].username) != name
  {
    if users == [] then None
    else if Some(users[0].username) == name then Some(0)
    else match FindByUsername(users[1..], name)
      case None => None
      case Some(k) => Some(k + 1)
  }

  /** A name absent from the table is found at the end once a user with it is appended. */
  lemma {:induction false} FindAppended(users: seq<User>, u: User, name: Option<string>)
    requires FindByUsername(users, name).None? && Some(u.username) == name
    ensures FindByUsername(users + [u], name) == Some(|users|)
  {
    if users != [] {
      assert (users + [u])[1..] == users[1..] + [u];
      FindAppended(users[1..], u, name);
    }
  }

  /** `findByEmail(...).isPresent()`. */
  predicate EmailTaken(users: seq<User>, email: Option<string>) {
    exists i :: 0 <= i < |users| && Some(users[i].email) == email
  }

  /** Usernames, emails and ids are unique, as the table's constraints require. */
  predicate UniqueUsers(users: seq<User>) {
    forall i, j :: 0 <= i < j < |users| ==>
      users[i].username != users[j].username && users[i].email != users[j].email && users[i].id != users[j].id
  }

  /** The branch a registered user keeps: the request's for BRANCH, none for CENTRAL. */
  function StoredBranch(role: Role, branch: Option<string>): (b: Option<string>)
    ensures b.Some? <==> role == BRANCH && branch.Some?
  {
    if role == BRANCH then branch else None
  }

  /**
   * `register`: conflicts on username, then on email; an unknown role, then a
   * BRANCH role without a branch, are bad requests. Otherwise the user is
   * stored with the encoded password, a generated id and the current time.
   * A null username or email, or a clash of the generated id, is rejected by
   * the store. A null password is handed to the encoder as it is; what the
   * encoder makes of it is the encoder's business.
   */
  function Register(users: seq<User>, req: RegisterRequest, enc: Encoder, uuid: string, now: Instant): (r: Result<(seq<User>, User)>)
    ensures FindByUsername(users, req.username).Some? ==> r == Throw(Conflict, "username already exists")
    ensures FindByUsername(users, req.username).None? && EmailTaken(users, req.email)
            ==> r == Throw(Conflict, "email already exists")
    ensures FindByUsername(users, req.username).None? && !EmailTaken(users, req.email) && RoleValueOf(req.role).None?
            ==> r == Throw(BadRequest, "invalid role")
    ensures FindByUsername(users, req.username).None? && !EmailTaken(users, req.email)
            && RoleValueOf(req.role) == Some(BRANCH) && NullOrBlank(req.branch)
            ==> r == Throw(BadRequest, "branch is required for BRANCH role")
    ensures r.Ok? ==>
      && r.value.0 == users + [r.value.1]
      && var u := r.value.1;
      && Some(u.username) == req.username && Some(u.email) == req.email
      && u.password == enc.encode(req.password)
      && RoleValueOf(req.role) == Some(u.role)
      && u.branch == StoredBranch(u.role, req.branch)
      && (u.role == BRANCH ==> !NullOrBlank(u.branch))
      && u.id == Some(GeneratedId("u_", uuid)) && u.createdAt == Some(now)
    ensures UniqueUsers(users) && r.Ok? ==> UniqueUsers(r.value.0)
    ensures && FindByUsername(users, req.username).None? && !EmailTaken(users, req.email)
            && RoleValueOf(req.role).Some? && !(RoleValueOf(req.role) == Some(BRANCH) && NullOrBlank(req.branch))
            && req.username.Some? && req.email.Some?
            && (forall i :: 0 <= i < |users| ==> users[i].id != Some(GeneratedId("u_", uuid)))
            ==> r.Ok?
  {
    if FindByUsername(users, req.username).Some? then Throw(Conflict, "username already exists")
    else if EmailTaken(users, req.email) then Throw(Conflict, "email already exists")
    else match RoleValueOf(req.role)
      case None => Throw(BadRequest, "invalid role")
      case Some(role) =>
        if role == BRANCH && NullOrBlank(req.branch) then Throw(BadRequest, "branch is required for BRANCH role")
        else if req.username.None? || req.email.None? then Err(Error(Internal, None))
        else
          var u := UserPrePersist(
            User(None, req.username.value, req.email.value, enc.encode(req.password), role, StoredBranch(role, req.branch), None),
            uuid, now);
          if exists i :: 0 <= i < |users| && users[i].id == u.id then Err(Error(Internal, None))
          else Ok((users + [u], u))
  }

  datatype LoginRequest = LoginRequest(username: Option<string>, password: Option<string>)

  /** The names of the fields whose `@NotBlank` fails on a login body. */
  function LoginRequestViolations(req: LoginRequest): (v: set<string>)
    ensures v <= {"username", "password"}
    ensures "username" in v <==> !NotBlankField(req.username)
    ensures "password" in v <==> !NotBlankField(req.password)
  {
    (if NotBlankField(req.username) then {} else {"username"})
    + (if NotBlankField(req.password) then {} else {"password"})
  }

  datatype LoginResponse = LoginResponse(token: string, expiresIn: int, role: Option<string>, branch: Option<string>)

  /** No user has that name, or the password does not match the first one that does. */
  predicate BadCredentials(users: seq<User>, req: LoginRequest, enc: Encoder) {
    var i := FindByUsername(users, req.username);
    i.None? || !enc.matches(req.password, users[i.value].password)
  }

  /**
   * `login`: an unknown username and a wrong password fail alike; otherwise
   * the response carries a fresh token, the configured lifetime, and the
   * user's role name and branch.
   */
  function Login(users: seq<User>, req: LoginRequest, enc: Encoder, issue: User -> string, expiresIn: int): (r: Result<LoginResponse>)
    ensures r.Err? ==> r == Throw(Unauthorized, "invalid credentials")
    ensures r.Err? <==> BadCredentials(users, req, enc)
    ensures r.Ok? ==> exists i :: (0 <= i < |users| && Some(users[i].username) == req.username
      && r.value == LoginResponse(issue(users[i]), expiresIn, Some(RoleName(users[i].role)), users[i].branch))
  {
    match FindByUsername(users, req.username)
    case None => Throw(Unauthorized, "invalid credentials")
    case Some(i) =>
      var u := users[i];
      if !enc.matches(req.password, u.password) then Throw(Unauthorized, "invalid credentials")
      else Ok(LoginResponse(issue(u), expiresIn, Some(RoleName(u.role)), u.branch))
  }

  /**
   * A user who registers can log in with the same password, provided the
   * encoder accepts what it encoded; the response names their role and branch.
   */
  lemma RegisterThenLogin(users: seq<User>, req: RegisterRequest, enc: Encoder, uuid: string, now: Instant,
                          issue: User -> string, expiresIn: int)
    requires UniqueUsers(users)
    requires Register(users, req, enc, uuid, now).Ok?
    requires enc.matches(req.password, enc.encode(req.password))
    ensures var (t, u) := Register(users, req, enc, uuid, now).value;
      Login(t, LoginRequest(req.username, req.password), enc, issue, expiresIn)
        == Ok(LoginResponse(issue(u), expiresIn, req.role, StoredBranch(u.role, req.branch)))
  {
    var (t, u) := Register(users, req, enc, uuid, now).value;
    FindAppended(users, u, req.username);
  }

  /** The user record as shown to clients. */
  datatype UserResponse = UserResponse(
    id: Option<string>, username: string, email: string, role: Option<string>, branch: Option<string>, createdAt: Option<Instant>)

  /** `toUserResponse`: every field but the password, which never leaves the service. */
  function ToUserResponse(u: User): (r: UserResponse)
    ensures RoleValueOf(r.role) == Some(u.role)
    ensures r.id == u.id && r.username == u.username && r.email == u.email
    ensures r.branch == u.branch && r.createdAt == u.createdAt
  {
    UserResponse(u.id, u.username, u.email, Some(RoleName(u.role)), u.branch, u.createdAt)
  }

  /** Two users differing only in their password are shown identically. */
  lemma PasswordNeverShown(u: User, pw: string)
    ensures ToUserResponse(u.(password := pw)) == ToUserResponse(u)
  {
  }
}
