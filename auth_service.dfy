/** Registration, login and token refresh (AuthService). Hashing and token
    signing are the uninterpreted functions of module Security. */
module AuthService {
  import opened Common
  import opened Entities
  import opened Tables
  import opened Security
  import UserService

  /** The codes of `BusinessException` used here. */
  const UsernameExists := 1001
  const EmailExists := 1002
  const PasswordMismatch := 1003
  const InvalidCredentials := 1010
  const InvalidRefreshToken := 1020

  /** The daily goal and difficulty every new account starts with. */
  const DefaultDailyGoal := 20
  const DefaultDifficulty := "medium"

  datatype Registered = Registered(userId: int, username: string)

  /** The login answer (`LoginResponse`), the user part flattened. */
  datatype LoginResponse = LoginResponse(
    accessToken: string,
    refreshToken: string,
    expiresIn: int,
    userId: int,
    username: string,
    avatar: Option<string>)

  datatype Refreshed = Refreshed(accessToken: string, expiresIn: int)

  /** Which check, in source order, rejects a registration: the confirmation
      (1003), then a taken username (1001), then a taken non-empty email (1002). */
  function RegisterCheck(rows: seq<User>, username: string, email: Option<string>,
                         password: string, confirmPassword: string): (r: Option<int>)
    ensures r == Some(PasswordMismatch) <==> password != confirmPassword
    ensures r == Some(UsernameExists) <==>
      password == confirmPassword && exists k :: 0 <= k < |rows| && rows[k].username == username
    ensures r == Some(EmailExists) <==>
      && password == confirmPassword
      && (forall k :: 0 <= k < |rows| ==> rows[k].username != username)
      && NonEmpty(email) && exists k :: 0 <= k < |rows| && rows[k].email == email
    ensures r.None? || r == Some(PasswordMismatch) || r == Some(UsernameExists) || r == Some(EmailExists)
  {
    if password != confirmPassword then Some(PasswordMismatch)
    else if FindByUsername(rows, username).Some? then Some(UsernameExists)
    else if NonEmpty(email) && FindByEmail(rows, email.value).Some? then Some(EmailExists)
    else None
  }

  /** The new account: the next id, the hash of the password, goal 20 and
      level "medium"; the email is stored as given, even when empty. */
  function NewUser(id: int, username: string, email: Option<string>, hash: string): User {
    User(id, username, email, hash, None, Some(DefaultDailyGoal), Some(DefaultDifficulty))
  }

  /** A new account starts inside the ranges a profile update enforces: its
      goal lies in [1, 100], its level is one of the three, and a request
      setting both to these values is accepted. */
  lemma NewAccountPassesProfileChecks(rows: seq<User>, id: int, username: string, email: Option<string>, hash: string)
    ensures var u := NewUser(id, username, email, hash);
      && u.dailyGoal.Some? && 1 <= u.dailyGoal.value <= 100
      && u.difficultyLevel.Some? && UserService.IsValidDifficultyLevel(u.difficultyLevel.value)
      && !UserService.Rejected(rows, id, UserService.ProfileRequest(None, None, u.dailyGoal, u.difficultyLevel))
  {
  }

  /** Login by username and password: the tokens of the user on success, and
      the same 1010 whether the user is unknown or the password is wrong. */
  function Login(rows: seq<User>, username: string, password: string,
                 encoder: PasswordEncoder, jwt: JwtTokenProvider): (r: Result<LoginResponse>)
    ensures r.Err? ==> r.code == InvalidCredentials
    ensures r.Ok? <==>
      var k := FindByUsername(rows, username);
      k.Some? && encoder.matches(password, rows[k.value].passwordHash)
    ensures r.Ok? ==>
      var u := rows[FindByUsername(rows, username).value];
      && r.value.userId == u.id && r.value.username == u.username && r.value.avatar == u.avatarUrl
      && r.value.accessToken == jwt.generateAccessToken(u.id, u.username)
      && r.value.refreshToken == jwt.generateRefreshToken(u.id, u.username)
      && r.value.expiresIn == JavaDiv(jwt.accessExpirationMs, 1000)
  {
    var k := FindByUsername(rows, username);
    if k.None? then Err(InvalidCredentials)
    else
      var u := rows[k.value];
      if !encoder.matches(password, u.passwordHash) then Err(InvalidCredentials)
      else
        Ok(LoginResponse(jwt.generateAccessToken(u.id, u.username), jwt.generateRefreshToken(u.id, u.username),
                         JavaDiv(jwt.accessExpirationMs, 1000), u.id, u.username, u.avatarUrl))
  }

  /** With unique usernames, login succeeds exactly when some account has the
      username and the password matches its hash. */
  lemma LoginIffCredentials(rows: seq<User>, username: string, password: string,
                            encoder: PasswordEncoder, jwt: JwtTokenProvider)
    requires ValidUsers(rows)
    ensures Login(rows, username, password, encoder, jwt).Ok? <==>
      exists k :: 0 <= k < |rows| && rows[k].username == username && encoder.matches(password, rows[k].passwordHash)
  {
    var k := FindByUsername(rows, username);
    if k.Some? {
      assert rows[k.value].username == username;
    }
  }

  /** An unknown username and a wrong password cannot be told apart. */
  lemma LoginFailuresAlike(rows: seq<User>, unknown: string, known: string, wrong: string,
                           encoder: PasswordEncoder, jwt: JwtTokenProvider)
    requires forall k :: 0 <= k < |rows| ==> rows[k].username != unknown
    requires FindByUsername(rows, known).Some?
    requires !encoder.matches(wrong, rows[FindByUsername(rows, known).value].passwordHash)
    ensures Login(rows, unknown, wrong, encoder, jwt) == Login(rows, known, wrong, encoder, jwt)
  {
  }

  /** Token refresh: 1020 unless the token is valid and a refresh token;
      otherwise a new access token for the token's claims. The account is not
      looked up again. */
  function RefreshToken(token: string, jwt: JwtTokenProvider): (r: Result<Refreshed>)
    ensures r.Err? <==> !jwt.validateToken(token) || !jwt.isRefreshToken(token)
    ensures r.Err? ==> r.code == InvalidRefreshToken
    ensures r.Ok? ==>
      && r.value.accessToken == jwt.generateAccessToken(jwt.userIdFromToken(token), jwt.usernameFromToken(token))
      && r.value.expiresIn == JavaDiv(jwt.accessExpirationMs, 1000)
  {
    if !jwt.validateToken(token) || !jwt.isRefreshToken(token) then Err(InvalidRefreshToken)
    else
      Ok(Refreshed(jwt.generateAccessToken(jwt.userIdFromToken(token), jwt.usernameFromToken(token)),
                   JavaDiv(jwt.accessExpirationMs, 1000)))
  }

  class AuthService {
    const userMapper: UserTable
    const passwordEncoder: PasswordEncoder
    const jwtTokenProvider: JwtTokenProvider

    constructor (userMapper: UserTable, passwordEncoder: PasswordEncoder, jwtTokenProvider: JwtTokenProvider)
      ensures this.userMapper == userMapper && this.passwordEncoder == passwordEncoder
      ensures this.jwtTokenProvider == jwtTokenProvider
    {
      this.userMapper := userMapper;
      this.passwordEncoder := passwordEncoder;
      this.jwtTokenProvider := jwtTokenProvider;
    }

    /** register: reject in check order, changing nothing; otherwise append the
        new account, keeping usernames and non-empty emails unique. */
    method Register(username: string, email: Option<string>, password: string, confirmPassword: string)
      returns (r: Result<Registered>)
      requires userMapper.Valid()
      modifies userMapper
      ensures userMapper.Valid()
      ensures var check := RegisterCheck(old(userMapper.rows), username, email, password, confirmPassword);
        check.Some? ==> r == Err(check.value) && userMapper.rows == old(userMapper.rows)
      ensures var check := RegisterCheck(old(userMapper.rows), username, email, password, confirmPassword);
        check.None? ==>
          var id := |old(userMapper.rows)| + 1;
          && r == Ok(Registered(id, username))
          && userMapper.rows == old(userMapper.rows) + [NewUser(id, username, email, passwordEncoder.encode(password))]
    {
      if password != confirmPassword {
        return Err(PasswordMismatch);
      }
      if FindByUsername(userMapper.rows, username).Some? {
        return Err(UsernameExists);
      }
      if email.Some? && email.value != "" && FindByEmail(userMapper.rows, email.value).Some? {
        return Err(EmailExists);
      }
      var id := |userMapper.rows| + 1;
      userMapper.rows := userMapper.rows + [NewUser(id, username, email, passwordEncoder.encode(password))];
      r := Ok(Registered(id, username));
    }
  }
}
