/** routes/auth.js: registering an account, logging in, and reading one's profile. Password
    hashing and comparison and token signing are parameters: `hash` stands for bcrypt.hash,
    `compare` for bcrypt.compare and `sign` for jwt.sign with the server's secret. */
module Auth {
  import opened Js
  import opened Http
  import opened Schema

  /** The claims a token carries. */
  datatype TokenPayload = TokenPayload(id: int, username: string, role: Role)

  function PayloadOf(u: User): TokenPayload {
    TokenPayload(u.id, u.username, u.role)
  }

  /** The columns register reads back: id, username, email, role, first and last name. */
  datatype NewUser = NewUser(id: int, username: string, email: string, role: Role,
                             firstName: string, lastName: string)

  datatype Registered = Registered(user: NewUser, token: string)

  /** The register request body. */
  datatype RegisterBody = RegisterBody(
    username: Value, email: Value, password: Value, role: Value,
    firstName: Value, lastName: Value, phone: Value, specialty: Value)

  /** `SELECT * FROM users WHERE username = ? OR email = ?`: a bound NULL equals nothing. */
  predicate Taken(users: seq<User>, username: Option<string>, email: Option<string>) {
    exists u :: u in users && (username == Some(u.username) || email == Some(u.email))
  }

  /** The values the INSERT binds, with the hash in place of the password. */
  function InsertOf(body: RegisterBody, passwordHash: string): UserInsert {
    UserInsert(TextColumn(body.username), TextColumn(body.email), passwordHash, TextColumn(body.role),
               TextColumn(body.firstName), TextColumn(body.lastName), TextColumn(body.phone),
               TextColumn(body.specialty))
  }

  function NewUserOf(u: User): NewUser {
    NewUser(u.id, u.username, u.email, u.role, u.firstName, u.lastName)
  }

  const RegisterError := "Server error during registration"

  datatype RegisterOutcome = RegisterOutcome(t: Tables, reply: Reply<Registered>)

  /** POST /register: reject a taken username or email with 400; hash the password (bcrypt
      throws on anything but a string); insert; read the new row back by its id; sign a
      token for it. A failing statement yields 500 and leaves the tables as they were. */
  function RegisterSpec(t: Tables, body: RegisterBody, hash: string -> string,
                        sign: TokenPayload -> string): RegisterOutcome
  {
    if Taken(t.users, TextColumn(body.username), TextColumn(body.email)) then
      RegisterOutcome(t, Fail(400, "Username or email already exists"))
    else if !body.password.Str? then RegisterOutcome(t, Fail(500, RegisterError))
    else
      match InsertUser(t, InsertOf(body, hash(body.password.s)))
      case None => RegisterOutcome(t, Fail(500, RegisterError))
      case Some(t') =>
        match FindUser(t'.users, t.nextUserId)
        case None => RegisterOutcome(t', Fail(500, RegisterError))
        case Some(u) => RegisterOutcome(t', Ok(201, Registered(NewUserOf(u), sign(PayloadOf(u)))))
  }

  method Register(db: Database, body: RegisterBody, hash: string -> string, sign: TokenPayload -> string)
    returns (reply: Reply<Registered>)
    modifies db
    ensures db.State() == RegisterSpec(old(db.State()), body, hash, sign).t
    ensures reply == RegisterSpec(old(db.State()), body, hash, sign).reply
  {
    if Taken(db.users, TextColumn(body.username), TextColumn(body.email)) {
      return Fail(400, "Username or email already exists");
    }
    if !body.password.Str? {
      return Fail(500, RegisterError);
    }
    var passwordHash := hash(body.password.s);
    var inserted := InsertUser(db.State(), InsertOf(body, passwordHash));
    if inserted.None? {
      return Fail(500, RegisterError);
    }
    var newId := db.nextUserId;
    db.users, db.nextUserId := inserted.value.users, inserted.value.nextUserId;
    var found := FindUser(db.users, newId);
    if found.None? {
      return Fail(500, RegisterError);
    }
    reply := Ok(201, Registered(NewUserOf(found.value), sign(PayloadOf(found.value))));
  }

  /** A taken username or email is refused with 400 and the tables are unchanged. */
  lemma RegisterDuplicate(t: Tables, body: RegisterBody, hash: string -> string, sign: TokenPayload -> string)
    requires exists u :: u in t.users && (TextColumn(body.username) == Some(u.username) || TextColumn(body.email) == Some(u.email))
    ensures RegisterSpec(t, body, hash, sign) == RegisterOutcome(t, Fail(400, "Username or email already exists"))
  {
  }

  /** On a consistent database, a successful register appends exactly one user carrying the
      submitted fields and the hash of the password, and replies with that row and a token
      for its id, username and role; a failed one changes nothing. */
  lemma RegisterInserts(t: Tables, body: RegisterBody, hash: string -> string, sign: TokenPayload -> string)
    requires ValidTables(t)
    ensures var r := RegisterSpec(t, body, hash, sign);
      && ValidTables(r.t)
      && (r.reply.Fail? ==> r.t == t)
      && (r.reply.Ok? ==>
            && body.password.Str?
            && |r.t.users| == |t.users| + 1 && r.t.users[..|t.users|] == t.users
            && r.t.recordings == t.recordings && r.t.notifications == t.notifications
            && var u := r.t.users[|t.users|];
            && u.id == t.nextUserId
            && Some(u.username) == TextColumn(body.username) && Some(u.email) == TextColumn(body.email)
            && u.passwordHash == hash(body.password.s)
            && Some(RoleText(u.role)) == TextColumn(body.role)
            && Some(u.firstName) == TextColumn(body.firstName) && Some(u.lastName) == TextColumn(body.lastName)
            && u.phone == TextColumn(body.phone) && u.specialty == TextColumn(body.specialty)
            && u.available
            && r.reply == Ok(201, Registered(NewUserOf(u), sign(PayloadOf(u)))))
  {
    var r := RegisterSpec(t, body, hash, sign);
    if !Taken(t.users, TextColumn(body.username), TextColumn(body.email)) && body.password.Str? {
      var row := InsertOf(body, hash(body.password.s));
      var ins := InsertUser(t, row);
      if ins.Some? {
        var u := UserRow(t.nextUserId, row);
        assert ins.value.users == t.users + [u];
        assert FindUser(ins.value.users, t.nextUserId) == Some(u) by {
          NewestIdFound(t.users, u, t.nextUserId);
        }
      }
    }
  }

  /** Reading back by the new id finds the appended row, since every older id is smaller. */
  lemma {:induction false} NewestIdFound(users: seq<User>, u: User, id: int)
    requires forall i :: 0 <= i < |users| ==> users[i].id < id
    requires u.id == id
    ensures FindUser(users + [u], id) == Some(u)
  {
    if users != [] {
      assert (users + [u])[1..] == users[1..] + [u];
      NewestIdFound(users[1..], u, id);
    }
  }

  // ---------------------------------------------------------------------------------------
  // POST /login

  /** The columns login returns. */
  datatype LoginUser = LoginUser(id: int, username: string, role: Role, firstName: string,
                                 lastName: string, specialty: Option<string>)

  datatype LoggedIn = LoggedIn(user: LoginUser, token: string)

  /** `SELECT * FROM users WHERE username = ?`, first row. */
  function FindByUsername(users: seq<User>, username: Option<string>): (r: Option<User>)
    ensures r.Some? ==> r.value in users && username == Some(r.value.username)
    ensures r.None? ==> forall u :: u in users ==> username != Some(u.username)
  {
    if users == [] then None
    else if username == Some(users[0].username) then Some(users[0])
    else FindByUsername(users[1..], username)
  }

  const InvalidCredentials := "Invalid credentials"

  /** POST /login. bcrypt.compare throws on a password that is not a string (500). */
  function Login(users: seq<User>, username: Value, password: Value, compare: (string, string) -> bool,
                 sign: TokenPayload -> string): (reply: Reply<LoggedIn>)
    ensures reply.Fail? ==> reply == Fail(400, InvalidCredentials) || reply == Fail(500, "Server error during login")
    ensures reply == Fail(400, InvalidCredentials) <==>
      || FindByUsername(users, TextColumn(username)).None?
      || (password.Str? && !compare(password.s, FindByUsername(users, TextColumn(username)).value.passwordHash))
    ensures reply.Ok? ==>
      exists u :: && u in users && TextColumn(username) == Some(u.username)
                  && password.Str? && compare(password.s, u.passwordHash)
                  && reply == Ok(200, LoggedIn(LoginUser(u.id, u.username, u.role, u.firstName, u.lastName, u.specialty),
                                               sign(PayloadOf(u))))
  {
    match FindByUsername(users, TextColumn(username))
    case None => Fail(400, InvalidCredentials)
    case Some(u) =>
      if !password.Str? then Fail(500, "Server error during login")
      else if !compare(password.s, u.passwordHash) then Fail(400, InvalidCredentials)
      else Ok(200, LoggedIn(LoginUser(u.id, u.username, u.role, u.firstName, u.lastName, u.specialty),
                            sign(PayloadOf(u))))
  }

  /** An unknown username and a wrong password get the same reply, so a caller cannot tell
      which usernames exist. */
  lemma LoginRejectsAlike(users: seq<User>, unknown: Value, known: Value, password: string,
                          compare: (string, string) -> bool, sign: TokenPayload -> string)
    requires forall u :: u in users ==> TextColumn(unknown) != Some(u.username)
    requires exists u :: u in users && TextColumn(known) == Some(u.username)
    requires !compare(password, FindByUsername(users, TextColumn(known)).value.passwordHash)
    ensures Login(users, unknown, Str(password), compare, sign) == Login(users, known, Str(password), compare, sign)
    ensures Login(users, unknown, Str(password), compare, sign) == Fail(400, InvalidCredentials)
  {
  }

  /** Registering and then logging in with the same username and password succeeds, and the
      token carries the new user's id, username and role, provided the password check
      accepts what the hash produced. */
  lemma RegisterThenLogin(t: Tables, body: RegisterBody, hash: string -> string,
                          compare: (string, string) -> bool, sign: TokenPayload -> string)
    requires ValidTables(t)
    requires RegisterSpec(t, body, hash, sign).reply.Ok?
    requires body.password.Str? ==> compare(body.password.s, hash(body.password.s))
    ensures var r := RegisterSpec(t, body, hash, sign);
      var l := Login(r.t.users, body.username, body.password, compare, sign);
      && l.Ok?
      && l.body.token == r.reply.body.token
      && l.body.user.id == r.reply.body.user.id && l.body.user.username == r.reply.body.user.username
      && l.body.user.role == r.reply.body.user.role
  {
    RegisterInserts(t, body, hash, sign);
    var r := RegisterSpec(t, body, hash, sign);
    var u := r.t.users[|t.users|];
    assert FindByUsername(r.t.users, TextColumn(body.username)) == Some(u) by {
      assert !Taken(t.users, TextColumn(body.username), TextColumn(body.email));
      LastUsernameFound(t.users, u);
    }
  }

  /** A username no older row has is found in the row appended last. */
  lemma {:induction false} LastUsernameFound(users: seq<User>, u: User)
    requires forall v :: v in users ==> v.username != u.username
    ensures FindByUsername(users + [u], Some(u.username)) == Some(u)
  {
    if users != [] {
      assert (users + [u])[1..] == users[1..] + [u];
      assert users[0] in users;
      LastUsernameFound(users[1..], u);
    }
  }

  // ---------------------------------------------------------------------------------------
  // GET /profile

  datatype Profile = Profile(id: int, username: string, email: string, role: Role,
                             firstName: string, lastName: string, phone: Option<string>,
                             specialty: Option<string>, available: bool)

  /** The caller's own row without the password hash, or 404. */
  function GetProfile(users: seq<User>, id: int): (reply: Reply<Profile>)
    ensures reply.Fail? <==> forall u :: u in users ==> u.id != id
    ensures reply.Fail? ==> reply == Fail(404, "User not found")
    ensures reply.Ok? ==> exists u :: && u in users && u.id == id && reply.status == 200
                                      && reply.body == Profile(u.id, u.username, u.email, u.role, u.firstName,
                                                               u.lastName, u.phone, u.specialty, u.available)
  {
    match FindUser(users, id)
    case None => Fail(404, "User not found")
    case Some(u) => Ok(200, Profile(u.id, u.username, u.email, u.role, u.firstName, u.lastName,
                                    u.phone, u.specialty, u.available))
  }
}
