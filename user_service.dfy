/** Profile management (UserService): reading the profile, patching it, and
    changing the password. */
module UserService {
  import opened Common
  import opened Entities
  import opened Tables
  import opened Security

  const BadRequest := 400
  const UserNotFound := 404

  /** The fields a profile update may carry; null means "leave as is". */
  datatype ProfileRequest = ProfileRequest(
    email: Option<string>,
    avatarUrl: Option<string>,
    dailyGoal: Option<int>,
    difficultyLevel: Option<string>)

  /** The profile view (`UserProfileDto`) without the creation time. */
  datatype UserProfile = UserProfile(
    id: int,
    username: string,
    email: Option<string>,
    avatarUrl: Option<string>,
    dailyGoal: Option<int>,
    difficultyLevel: Option<string>,
    totalWordsLearned: int,
    streakDays: int)

  /** The three difficulty levels a user may choose. */
  predicate IsValidDifficultyLevel(level: string) {
    level == "easy" || level == "medium" || level == "hard"
  }

  /** `countByUserId(userId, null)`: how many vocabulary entries the user has. */
  function WordCount(entries: map<int, Vocabulary>, userId: int): nat {
    |set id | id in entries && entries[id].userId == userId|
  }

  /** getUserProfile: 404 for an unknown user; otherwise the stored fields,
      the number of entries in the user's book, and a streak that is always 0.
      On a well-formed table a profile is found exactly for an existing id and
      shows that id. */
  function ProfileOf(rows: seq<User>, entries: map<int, Vocabulary>, userId: int): (r: Result<UserProfile>)
    ensures r.Err? ==> r.code == UserNotFound
    ensures ValidUsers(rows) ==> (r.Ok? <==> exists k :: 0 <= k < |rows| && rows[k].id == userId)
    ensures ValidUsers(rows) && r.Ok? ==> r.value.id == userId
    ensures r.Ok? ==> r.value.streakDays == 0
  {
    match FindUser(rows, userId)
    case None => Err(UserNotFound)
    case Some(u) =>
      Ok(UserProfile(u.id, u.username, u.email, u.avatarUrl, u.dailyGoal, u.difficultyLevel,
                     WordCount(entries, userId), 0))
  }

  /** The email belongs to a user other than `userId` (`findByEmail`). */
  predicate EmailTakenByOther(rows: seq<User>, email: string, userId: int) {
    var k := FindByEmail(rows, email);
    k.Some? && rows[k.value].id != userId
  }

  /** Whether updateProfile rejects the request, checking in source order: the
      email is used by someone else, the daily goal lies outside [1, 100], the
      difficulty level is not one of the three. */
  predicate Rejected(rows: seq<User>, userId: int, req: ProfileRequest) {
    || (NonEmpty(req.email) && EmailTakenByOther(rows, req.email.value, userId))
    || (req.dailyGoal.Some? && (req.dailyGoal.value < 1 || req.dailyGoal.value > 100))
    || (req.difficultyLevel.Some? && !IsValidDifficultyLevel(req.difficultyLevel.value))
  }

  /** The user after an accepted update: a non-empty email, and any non-null
      avatar, goal or level replace the stored value; identity and password are
      kept. */
  function Patched(u: User, req: ProfileRequest): (r: User)
    ensures r.id == u.id && r.username == u.username && r.passwordHash == u.passwordHash
    ensures r.email == if NonEmpty(req.email) then req.email else u.email
    ensures r.avatarUrl == if req.avatarUrl.Some? then req.avatarUrl else u.avatarUrl
    ensures r.dailyGoal == if req.dailyGoal.Some? then req.dailyGoal else u.dailyGoal
    ensures r.difficultyLevel == if req.difficultyLevel.Some? then req.difficultyLevel else u.difficultyLevel
  {
    var withEmail := if NonEmpty(req.email) then u.(email := req.email) else u;
    var withAvatar := if req.avatarUrl.Some? then withEmail.(avatarUrl := req.avatarUrl) else withEmail;
    var withGoal := if req.dailyGoal.Some? then withAvatar.(dailyGoal := req.dailyGoal) else withAvatar;
    if req.difficultyLevel.Some? then withGoal.(difficultyLevel := req.difficultyLevel) else withGoal
  }

  /** The profile read after an accepted update shows it: the new email when
      non-empty, each non-null avatar, goal and level, and the stored value of
      every field the request left out. */
  lemma ProfileShowsUpdate(rows: seq<User>, entries: map<int, Vocabulary>, userId: int, req: ProfileRequest)
    requires ValidUsers(rows) && FindUser(rows, userId).Some?
    ensures var u := rows[userId - 1];
      var p := ProfileOf(rows[userId - 1 := Patched(u, req)], entries, userId);
      && p.Ok? && p.value.id == userId && p.value.username == u.username
      && p.value.email == (if NonEmpty(req.email) then req.email else u.email)
      && p.value.avatarUrl == (if req.avatarUrl.Some? then req.avatarUrl else u.avatarUrl)
      && p.value.dailyGoal == (if req.dailyGoal.Some? then req.dailyGoal else u.dailyGoal)
      && p.value.difficultyLevel == (if req.difficultyLevel.Some? then req.difficultyLevel else u.difficultyLevel)
      && p.value.streakDays == 0
  {
  }

  /** The update request that sets every field to what a profile shows. */
  function Resubmission(p: UserProfile): ProfileRequest {
    ProfileRequest(p.email, p.avatarUrl, p.dailyGoal, p.difficultyLevel)
  }

  /** Sending back the profile just read is accepted when the stored goal and
      level are in range, and it writes the user back unchanged: the user's
      own email never counts as taken. */
  lemma ResubmittedProfileChangesNothing(rows: seq<User>, entries: map<int, Vocabulary>, userId: int)
    requires ValidUsers(rows) && FindUser(rows, userId).Some?
    requires rows[userId - 1].dailyGoal.Some? ==> 1 <= rows[userId - 1].dailyGoal.value <= 100
    requires rows[userId - 1].difficultyLevel.Some? ==>
      IsValidDifficultyLevel(rows[userId - 1].difficultyLevel.value)
    ensures ProfileOf(rows, entries, userId).Ok?
    ensures var req := Resubmission(ProfileOf(rows, entries, userId).value);
      !Rejected(rows, userId, req) && Patched(rows[userId - 1], req) == rows[userId - 1]
  {
    var u := rows[userId - 1];
    if NonEmpty(u.email) {
      var k := FindByEmail(rows, u.email.value);
      assert k.Some? && k.value == userId - 1;
    }
  }

  /** Applying the same update twice is the same as applying it once. */
  lemma PatchIdempotent(u: User, req: ProfileRequest)
    ensures Patched(Patched(u, req), req) == Patched(u, req)
  {
  }

  /** An all-null request, or one whose email is empty, changes nothing it
      does not name. */
  lemma EmptyRequestKeepsUser(u: User)
    ensures Patched(u, ProfileRequest(None, None, None, None)) == u
    ensures Patched(u, ProfileRequest(Some(""), None, None, None)) == u
  {
  }

  /** An accepted update yields a goal in [1, 100] and a valid level whenever
      the request set them. */
  lemma AcceptedFieldsInRange(rows: seq<User>, userId: int, u: User, req: ProfileRequest)
    requires !Rejected(rows, userId, req)
    ensures req.dailyGoal.Some? ==> 1 <= Patched(u, req).dailyGoal.value <= 100
    ensures req.difficultyLevel.Some? ==> IsValidDifficultyLevel(Patched(u, req).difficultyLevel.value)
  {
  }

  /** When a non-empty email is not taken by another user, no row but the
      user's own holds it. */
  lemma EmailFree(rows: seq<User>, email: string, userId: int)
    requires ValidUsers(rows) && email != "" && !EmailTakenByOther(rows, email, userId)
    ensures forall j :: 0 <= j < |rows| && rows[j].id != userId ==> rows[j].email != Some(email)
  {
    var k := FindByEmail(rows, email);
    forall j | 0 <= j < |rows| && rows[j].id != userId
      ensures rows[j].email != Some(email)
    {
      if k.Some? {
        assert rows[k.value].id == userId;
      }
    }
  }

  /** Replacing a row keeps the table's invariants when identity is kept and a
      new non-empty email is held by no other row. */
  lemma ReplaceKeepsValid(rows: seq<User>, k: int, nu: User)
    requires ValidUsers(rows) && 0 <= k < |rows|
    requires nu.id == rows[k].id && nu.username == rows[k].username
    requires NonEmpty(nu.email) ==>
      nu.email == rows[k].email || forall j :: 0 <= j < |rows| && j != k ==> rows[j].email != nu.email
    ensures ValidUsers(rows[k := nu])
  {
  }

  /** Writing back an accepted update keeps the table's invariants. */
  lemma AcceptedKeepsValid(rows: seq<User>, userId: int, req: ProfileRequest)
    requires ValidUsers(rows) && 1 <= userId <= |rows| && !Rejected(rows, userId, req)
    ensures ValidUsers(rows[userId - 1 := Patched(rows[userId - 1], req)])
  {
    if NonEmpty(req.email) {
      EmailFree(rows, req.email.value, userId);
    }
    ReplaceKeepsValid(rows, userId - 1, Patched(rows[userId - 1], req));
  }

  class UserService {
    const userMapper: UserTable
    const vocabularyMapper: VocabularyTable
    const passwordEncoder: PasswordEncoder

    constructor (userMapper: UserTable, vocabularyMapper: VocabularyTable, passwordEncoder: PasswordEncoder)
      ensures this.userMapper == userMapper && this.vocabularyMapper == vocabularyMapper
      ensures this.passwordEncoder == passwordEncoder
    {
      this.userMapper := userMapper;
      this.vocabularyMapper := vocabularyMapper;
      this.passwordEncoder := passwordEncoder;
    }

    /** updateProfile: 404 for an unknown user, 400 for a rejected request
        (nothing written in either case); otherwise one write of the patched
        user, and the fresh profile is returned. */
    method UpdateProfile(userId: int, req: ProfileRequest) returns (r: Result<UserProfile>)
      requires userMapper.Valid()
      modifies userMapper
      ensures userMapper.Valid()
      ensures FindUser(old(userMapper.rows), userId).None? ==>
        r == Err(UserNotFound) && userMapper.rows == old(userMapper.rows)
      ensures FindUser(old(userMapper.rows), userId).Some? && Rejected(old(userMapper.rows), userId, req) ==>
        r == Err(BadRequest) && userMapper.rows == old(userMapper.rows)
      ensures FindUser(old(userMapper.rows), userId).Some? && !Rejected(old(userMapper.rows), userId, req) ==>
        && userMapper.rows == old(userMapper.rows)[userId - 1 := Patched(old(userMapper.rows)[userId - 1], req)]
        && r == ProfileOf(userMapper.rows, vocabularyMapper.entries, userId)
        && r.Ok?
    {
      var found := FindUser(userMapper.rows, userId);
      if found.None? {
        return Err(UserNotFound);
      }
      var user := found.value;
      if req.email.Some? && req.email.value != "" {
        var existing := FindByEmail(userMapper.rows, req.email.value);
        if existing.Some? && userMapper.rows[existing.value].id != userId {
          return Err(BadRequest);
        }
        user := user.(email := req.email);
      }
      if req.avatarUrl.Some? {
        user := user.(avatarUrl := req.avatarUrl);
      }
      if req.dailyGoal.Some? {
        if req.dailyGoal.value < 1 || req.dailyGoal.value > 100 {
          return Err(BadRequest);
        }
        user := user.(dailyGoal := req.dailyGoal);
      }
      if req.difficultyLevel.Some? {
        if !IsValidDifficultyLevel(req.difficultyLevel.value) {
          return Err(BadRequest);
        }
        user := user.(difficultyLevel := req.difficultyLevel);
      }
      assert user == Patched(found.value, req);
      AcceptedKeepsValid(userMapper.rows, userId, req);
      userMapper.rows := userMapper.rows[userId - 1 := user];
      r := ProfileOf(userMapper.rows, vocabularyMapper.entries, userId);
    }

    /** changePassword: the confirmation must match (400) before the user is
        looked up (404) and the current password checked (400); then only the
        hash changes. */
    method ChangePassword(userId: int, currentPassword: string, newPassword: string, confirmPassword: string)
      returns (r: Result<()>)
      requires userMapper.Valid()
      modifies userMapper
      ensures userMapper.Valid()
      ensures newPassword != confirmPassword ==>
        r == Err(BadRequest) && userMapper.rows == old(userMapper.rows)
      ensures newPassword == confirmPassword && FindUser(old(userMapper.rows), userId).None? ==>
        r == Err(UserNotFound) && userMapper.rows == old(userMapper.rows)
      ensures newPassword == confirmPassword && FindUser(old(userMapper.rows), userId).Some? ==>
        var u := FindUser(old(userMapper.rows), userId).value;
        && (!passwordEncoder.matches(currentPassword, u.passwordHash) ==>
              r == Err(BadRequest) && userMapper.rows == old(userMapper.rows))
        && (passwordEncoder.matches(currentPassword, u.passwordHash) ==>
              r == Ok(()) && userMapper.rows == old(userMapper.rows)[userId - 1 :=
                u.(passwordHash := passwordEncoder.encode(newPassword))])
    {
      if newPassword != confirmPassword {
        return Err(BadRequest);
      }
      var found := FindUser(userMapper.rows, userId);
      if found.None? {
        return Err(UserNotFound);
      }
      var user := found.value;
      if !passwordEncoder.matches(currentPassword, user.passwordHash) {
        return Err(BadRequest);
      }
      user := user.(passwordHash := passwordEncoder.encode(newPassword));
      ReplaceKeepsValid(userMapper.rows, userId - 1, user);
      userMapper.rows := userMapper.rows[userId - 1 := user];
      r := Ok(());
    }
  }
}
