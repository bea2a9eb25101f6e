/**
 * user_manager.py: user accounts with salted password hashes, login sessions
 * with an expiry, single-use password reset tokens, directly granted
 * permissions and the fixed permissions of each role.
 *
 * The users table is a sequence of rows in rowid order with three UNIQUE
 * columns (user id, username, email); the tables that are only looked up by
 * their primary key (sessions, reset tokens, permissions) are maps from that
 * key.  The clock (`now`, in seconds), the generated salts, session ids,
 * reset tokens and the `%Y%m%d%H%M%S` timestamp are arguments.  SHA-256 is
 * the injective constructor `Common.Sha256`.  An exception that leaves the method
 * is the `Raised` outcome.
 */
module UserManagement {
  import opened Common
  import opened Tables

  datatype UserRole = Admin | Instructor | Trainee
  datatype UserStatus = Active | Inactive | Suspended | Pending

  /** `_hash_password`: the digest of the password followed by the salt. */
  function HashPassword(password: string, salt: string): Digest
  {
    Sha256(password + salt)
  }

  datatype UserRow = UserRow(
    userId: string,
    username: string,
    email: string,
    passwordHash: Digest,
    salt: string,
    fullName: string,
    role: UserRole,
    status: UserStatus,
    department: Option<string>,
    employeeId: Option<string>,
    createdAt: int,
    lastLogin: Option<int>,
    profilePicture: Option<string>,
    preferences: Json,
    metadata: Json)

  /** The `User` record: a row without its credentials. */
  datatype User = User(
    userId: string,
    username: string,
    email: string,
    fullName: string,
    role: UserRole,
    status: UserStatus,
    department: Option<string>,
    employeeId: Option<string>,
    createdAt: int,
    lastLogin: Option<int>,
    profilePicture: Option<string>,
    preferences: Json,
    metadata: Json)

  /** A sessions row, keyed by its session id. */
  datatype Session = Session(
    sessionId: string,
    userId: string,
    createdAt: int,
    expiresAt: int,
    ipAddress: Option<string>,
    userAgent: Option<string>,
    isActive: bool)

  /** A password_reset_tokens row, keyed by its token. */
  datatype ResetToken = ResetToken(userId: string, createdAt: int, expiresAt: int, used: bool)

  /** A user_permissions row, UNIQUE(user_id, permission). */
  datatype Grant = Grant(grantedBy: Option<string>, grantedAt: int)

  /** What a method hands back: a value, or an exception it lets escape. */
  datatype Outcome<T> = Returned(value: T) | Raised(error: string)

  function UserIdOf(r: UserRow): string { r.userId }
  function UsernameOf(r: UserRow): string { r.username }
  function EmailOf(r: UserRow): string { r.email }

  /** The three UNIQUE constraints of the users table. */
  predicate UsersUnique(users: seq<UserRow>)
  {
    UniqueKeys(users, UserIdOf) && UniqueKeys(users, UsernameOf) && UniqueKeys(users, EmailOf)
  }

  /** `_row_to_user`. */
  function ToUser(r: UserRow): User
  {
    User(r.userId, r.username, r.email, r.fullName, r.role, r.status, r.department,
      r.employeeId, r.createdAt, r.lastLogin, r.profilePicture, r.preferences, r.metadata)
  }

  /** `_generate_user_id`: `USER-`, the first five characters of the
      upper-cased username, `-`, and the timestamp. */
  function GenerateUserId(username: string, timestamp: string): (r: string)
    ensures StartsWith(r, "USER-") && EndsWith(r, "-" + timestamp)
    ensures |r| == 6 + (if |username| < 5 then |username| else 5) + |timestamp|
    ensures forall i :: 0 <= i < |username| && i < 5 ==> r[5 + i] == UpperChar(username[i])
  {
    var head := Upper(username);
    var n := if |head| < 5 then |head| else 5;
    "USER-" + head[..n] + "-" + timestamp
  }

  /** The id is not unique: two usernames that agree on their first five
      letters up to case get the same id within the same second. */
  lemma {:induction false} GeneratedIdsCollide(a: string, b: string, timestamp: string)
    requires |a| >= 5 && |b| >= 5
    requires forall i :: 0 <= i < 5 ==> UpperChar(a[i]) == UpperChar(b[i])
    ensures GenerateUserId(a, timestamp) == GenerateUserId(b, timestamp)
  {
    assert Upper(a)[..5] == Upper(b)[..5];
  }

  // ---------------------------------------------------------------------
  // Users table.

  /** `SELECT ... FROM users WHERE username = ? OR email = ?` with the login
      in both places: the first row whose username or email it is. */
  function FindLogin(users: seq<UserRow>, login: string): (r: Option<UserRow>)
    ensures r.Some? ==> r.value in users && (r.value.username == login || r.value.email == login)
    ensures r.None? ==> forall x :: x in users ==> x.username != login && x.email != login
  {
    if |users| == 0 then None
    else if users[0].username == login || users[0].email == login then Some(users[0])
    else FindLogin(users[1..], login)
  }

  /** The account `authenticate` admits: found by username or email, with
      a matching password and the status active. */
  function Admitted(users: seq<UserRow>, login: string, password: string): (r: Option<UserRow>)
    ensures r.Some? ==> (r.value in users && (r.value.username == login || r.value.email == login)
      && HashPassword(password, r.value.salt) == r.value.passwordHash && r.value.status == Active)
    ensures r.None? <==> (FindLogin(users, login).None?
      || HashPassword(password, FindLogin(users, login).value.salt) != FindLogin(users, login).value.passwordHash
      || FindLogin(users, login).value.status != Active)
  {
    match FindLogin(users, login)
    case None => None
    case Some(row) =>
      if HashPassword(password, row.salt) != row.passwordHash then None
      else if row.status != Active then None
      else Some(row)
  }

  /** What an `UPDATE users SET ... WHERE user_id = ?` changes in a row. */
  datatype Change = Credentials(hash: Digest, salt: string) | LoggedIn(at: int)

  function Apply(r: UserRow, c: Change): UserRow
  {
    match c
    case Credentials(h, s) => r.(passwordHash := h, salt := s)
    case LoggedIn(t) => r.(lastLogin := Some(t))
  }

  /** `UPDATE users SET ... WHERE user_id = uid`. */
  function Modified(users: seq<UserRow>, uid: string, c: Change): (r: seq<UserRow>)
    ensures |r| == |users|
    ensures forall i :: 0 <= i < |users| ==>
      r[i].userId == users[i].userId && r[i].username == users[i].username && r[i].email == users[i].email
  {
    seq(|users|, i requires 0 <= i < |users| => if users[i].userId == uid then Apply(users[i], c) else users[i])
  }

  /** An UPDATE by user id keeps the UNIQUE constraints, changes the row of
      that user and no other. */
  lemma {:induction false} FindModified(users: seq<UserRow>, uid: string, c: Change, k: string)
    ensures UsersUnique(users) ==> UsersUnique(Modified(users, uid, c))
    ensures Find(Modified(users, uid, c), UserIdOf, k) ==
      match Find(users, UserIdOf, k)
      case None => None
      case Some(x) => Some(if k == uid then Apply(x, c) else x)
    decreases |users|
  {
    var m := Modified(users, uid, c);
    if UsersUnique(users) {
      SameKeysUnique(users, m, UserIdOf);
      SameKeysUnique(users, m, UsernameOf);
      SameKeysUnique(users, m, EmailOf);
    }
    if |users| > 0 {
      assert m[1..] == Modified(users[1..], uid, c);
      FindModified(users[1..], uid, c, k);
    }
  }

  /** The users table with one row appended keeps its UNIQUE constraints
      when the new row clashes with none. */
  lemma UsersSnoc(users: seq<UserRow>, x: UserRow)
    requires UsersUnique(users)
    requires Find(users, UserIdOf, x.userId).None?
    requires Find(users, UsernameOf, x.username).None?
    requires Find(users, EmailOf, x.email).None?
    ensures UsersUnique(users + [x])
  {
  }

  // ---------------------------------------------------------------------
  // Permissions.

  const InstructorPermissions: seq<string> :=
    ["view_all_progress", "create_assignments", "grade_submissions", "view_reports"]
  const TraineePermissions: seq<string> :=
    ["view_own_progress", "submit_assignments", "download_certificates"]

  /** `role_permissions.get(role, [])`: admins never reach this table. */
  function RolePermissions(role: UserRole): seq<string>
  {
    match role
    case Admin => []
    case Instructor => InstructorPermissions
    case Trainee => TraineePermissions
  }

  /** `INSERT OR IGNORE INTO user_permissions`: an existing grant is kept as
      it is. */
  function Granted(grants: map<(string, string), Grant>, u: string, p: string, grantor: Option<string>, now: int)
    : (r: map<(string, string), Grant>)
    ensures (u, p) in r && r.Keys == grants.Keys + {(u, p)}
    ensures forall k :: k in grants ==> r[k] == grants[k]
  {
    if (u, p) in grants then grants else grants[(u, p) := Grant(grantor, now)]
  }

  /** Granting the same permission again changes nothing, whoever grants it
      and whenever. */
  lemma GrantIdempotent(grants: map<(string, string), Grant>, u: string, p: string,
                        g1: Option<string>, t1: int, g2: Option<string>, t2: int)
    ensures Granted(Granted(grants, u, p, g1, t1), u, p, g2, t2) == Granted(grants, u, p, g1, t1)
  {
  }

  /** `has_permission`: a direct grant; otherwise an admin has everything,
      an instructor or trainee has the permissions of its role, and a user
      without a row has nothing. */
  function Allowed(grants: map<(string, string), Grant>, users: seq<UserRow>, u: string, p: string): (r: bool)
    ensures (u, p) in grants ==> r
    ensures Find(users, UserIdOf, u).None? ==> (r <==> (u, p) in grants)
    ensures Find(users, UserIdOf, u).Some? && Find(users, UserIdOf, u).value.role == Admin ==> r
  {
    if (u, p) in grants then true
    else
      match Find(users, UserIdOf, u)
      case None => false
      case Some(row) => row.role == Admin || p in RolePermissions(row.role)
  }

  /** Without a direct grant, an instructor or trainee has exactly its
      role's permissions. */
  lemma RoleAllowed(grants: map<(string, string), Grant>, users: seq<UserRow>, row: UserRow, p: string)
    requires UniqueKeys(users, UserIdOf) && row in users && row.role != Admin
    requires (row.userId, p) !in grants
    ensures Allowed(grants, users, row.userId, p) <==> p in RolePermissions(row.role)
  {
    FindUnique(users, UserIdOf, row);
  }

  /** After a grant the permission is held, and nothing held before is lost. */
  lemma GrantAllows(grants: map<(string, string), Grant>, users: seq<UserRow>, u: string, p: string,
                    grantor: Option<string>, now: int, v: string, q: string)
    ensures Allowed(Granted(grants, u, p, grantor, now), users, u, p)
    ensures Allowed(grants, users, v, q) ==> Allowed(Granted(grants, u, p, grantor, now), users, v, q)
  {
  }

  class UserManager {
    var users: seq<UserRow>
    var sessions: map<string, Session>
    var grants: map<(string, string), Grant>
    var resetTokens: map<string, ResetToken>
    /** `session_duration`, in seconds. */
    const sessionDuration: int

    predicate Valid()
      reads this
    {
      UsersUnique(users)
    }

    /** `__init__` on a database that already holds these tables. */
    constructor (users: seq<UserRow>, sessions: map<string, Session>, grants: map<(string, string), Grant>,
                 resetTokens: map<string, ResetToken>, sessionDurationHours: int)
      requires UsersUnique(users)
      ensures Valid()
      ensures this.users == users && this.sessions == sessions && this.grants == grants
      ensures this.resetTokens == resetTokens && sessionDuration == sessionDurationHours * 3600
    {
      this.users, this.sessions, this.grants, this.resetTokens := users, sessions, grants, resetTokens;
      sessionDuration := sessionDurationHours * 3600;
    }

    /** `get_user`. */
    function GetUser(userId: string): (r: Option<User>)
      reads this
      ensures r.Some? <==> Find(users, UserIdOf, userId).Some?
      ensures r.Some? ==> r.value.userId == userId
    {
      match Find(users, UserIdOf, userId)
      case None => None
      case Some(row) => Some(ToUser(row))
    }

    /** `validate_session`: a missing session, an inactive one, or one whose
        expiry lies strictly before now gives None; otherwise the session's
        user, if that user still has a row. */
    function ValidateSession(sessionId: string, now: int): (r: Option<User>)
      reads this
      ensures r.Some? ==> (sessionId in sessions && sessions[sessionId].isActive
        && now <= sessions[sessionId].expiresAt && r.value.userId == sessions[sessionId].userId)
      ensures sessionId in sessions && sessions[sessionId].isActive && now <= sessions[sessionId].expiresAt ==>
        r == GetUser(sessions[sessionId].userId)
    {
      if sessionId !in sessions then None
      else
        var s := sessions[sessionId];
        if !s.isActive || s.expiresAt < now then None else GetUser(s.userId)
    }

    /** Whether `password` is the current password of the user. */
    predicate PasswordMatches(userId: string, password: string)
      reads this
    {
      match Find(users, UserIdOf, userId)
      case None => false
      case Some(row) => HashPassword(password, row.salt) == row.passwordHash
    }

    /** `create_user`: an active account with empty preferences and
        metadata.  A taken username or email raises ValueError naming it;
        a taken user id raises the IntegrityError unchanged.  When several
        clash at once the username is reported first, then the email. */
    method CreateUser(username: string, email: string, password: string, fullName: string, role: UserRole,
                      department: Option<string>, employeeId: Option<string>,
                      salt: string, timestamp: string, now: int) returns (r: Outcome<User>)
      requires Valid()
      modifies this
      ensures Valid()
      ensures var uid := GenerateUserId(username, timestamp);
        if Find(old(users), UsernameOf, username).Some? then r == Raised("Username already exists") && users == old(users)
        else if Find(old(users), EmailOf, email).Some? then r == Raised("Email already exists") && users == old(users)
        else if Find(old(users), UserIdOf, uid).Some? then r == Raised("IntegrityError") && users == old(users)
        else
          var row := UserRow(uid, username, email, HashPassword(password, salt), salt, fullName, role, Active,
            department, employeeId, now, None, None, JObj(map[]), JObj(map[]));
          r == Returned(ToUser(row)) && users == old(users) + [row]
      ensures r.Returned? ==> (r.value.status == Active && r.value.preferences == JObj(map[])
        && r.value.metadata == JObj(map[]) && PasswordMatches(r.value.userId, password))
      ensures sessions == old(sessions) && grants == old(grants) && resetTokens == old(resetTokens)
    {
      var uid := GenerateUserId(username, timestamp);
      if Find(users, UsernameOf, username).Some? {
        return Raised("Username already exists");
      }
      if Find(users, EmailOf, email).Some? {
        return Raised("Email already exists");
      }
      if Find(users, UserIdOf, uid).Some? {
        return Raised("IntegrityError");
      }
      var row := UserRow(uid, username, email, HashPassword(password, salt), salt, fullName, role, Active,
        department, employeeId, now, None, None, JObj(map[]), JObj(map[]));
      UsersSnoc(users, row);
      users := users + [row];
      FindUnique(users, UserIdOf, row);
      r := Returned(ToUser(row));
    }

    /** `authenticate`/`_create_session`: the account is looked up by
        username or email; a missing account, a wrong password or a status
        other than active gives None and changes nothing.  Otherwise a
        session expiring `sessionDuration` later is stored and the login
        time recorded; a clashing session id raises and nothing is kept. */
    method Authenticate(login: string, password: string, ipAddress: Option<string>, userAgent: Option<string>,
                        sessionId: string, now: int) returns (r: Outcome<Option<Session>>)
      requires Valid()
      modifies this
      ensures Valid()
      ensures var found := Admitted(old(users), login, password);
        if found.None? then r == Returned(None) && users == old(users) && sessions == old(sessions)
        else if sessionId in old(sessions) then r.Raised? && users == old(users) && sessions == old(sessions)
        else
          var s := Session(sessionId, found.value.userId, now, now + sessionDuration, ipAddress, userAgent, true);
          r == Returned(Some(s)) && sessions == old(sessions)[sessionId := s]
          && users == Modified(old(users), found.value.userId, LoggedIn(now))
      ensures r.Returned? && r.value.Some? ==> forall t :: t <= now + sessionDuration ==>
        ValidateSession(sessionId, t).Some? && ValidateSession(sessionId, t).value.lastLogin == Some(now)
      ensures grants == old(grants) && resetTokens == old(resetTokens)
    {
      var found := Admitted(users, login, password);
      if found.None? {
        return Returned(None);
      }
      var row := found.value;
      if sessionId in sessions {
        return Raised("IntegrityError");
      }
      var s := Session(sessionId, row.userId, now, now + sessionDuration, ipAddress, userAgent, true);
      sessions := sessions[sessionId := s];
      FindUnique(users, UserIdOf, row);
      FindModified(users, row.userId, LoggedIn(now), row.userId);
      users := Modified(users, row.userId, LoggedIn(now));
      assert GetUser(row.userId) == Some(ToUser(Apply(row, LoggedIn(now))));
      r := Returned(Some(s));
    }

    /** `logout`: the session, if any, becomes inactive; afterwards it never
        validates. */
    method Logout(sessionId: string)
      modifies this
      ensures sessions == if sessionId in old(sessions)
        then old(sessions)[sessionId := old(sessions)[sessionId].(isActive := false)] else old(sessions)
      ensures forall t :: ValidateSession(sessionId, t).None?
      ensures users == old(users) && grants == old(grants) && resetTokens == old(resetTokens)
    {
      if sessionId in sessions {
        sessions := sessions[sessionId := sessions[sessionId].(isActive := false)];
      }
    }

    /** `change_password`: an unknown user or a wrong old password gives
        False and changes nothing; otherwise the new password (with a fresh
        salt) replaces the old one. */
    method ChangePassword(userId: string, oldPassword: string, newPassword: string, newSalt: string)
      returns (ok: bool)
      requires Valid()
      modifies this
      ensures Valid()
      ensures ok == old(PasswordMatches(userId, oldPassword))
      ensures ok ==> (users == Modified(old(users), userId, Credentials(HashPassword(newPassword, newSalt), newSalt))
        && PasswordMatches(userId, newPassword))
      ensures !ok ==> users == old(users)
      ensures sessions == old(sessions) && grants == old(grants) && resetTokens == old(resetTokens)
    {
      var found := Find(users, UserIdOf, userId);
      if found.None? || HashPassword(oldPassword, found.value.salt) != found.value.passwordHash {
        return false;
      }
      FindModified(users, userId, Credentials(HashPassword(newPassword, newSalt), newSalt), userId);
      users := Modified(users, userId, Credentials(HashPassword(newPassword, newSalt), newSalt));
      ok := true;
    }

    /** `create_password_reset_token`: None for an unknown email; otherwise
        a token valid for one hour is stored and returned.  A clashing token
        raises and nothing is kept. */
    method CreatePasswordResetToken(email: string, token: string, now: int) returns (r: Outcome<Option<string>>)
      modifies this
      ensures var found := Find(old(users), EmailOf, email);
        if found.None? then r == Returned(None) && resetTokens == old(resetTokens)
        else if token in old(resetTokens) then r.Raised? && resetTokens == old(resetTokens)
        else (r == Returned(Some(token))
          && resetTokens == old(resetTokens)[token := ResetToken(found.value.userId, now, now + 3600, false)])
      ensures users == old(users) && sessions == old(sessions) && grants == old(grants)
    {
      var found := Find(users, EmailOf, email);
      if found.None? {
        return Returned(None);
      }
      if token in resetTokens {
        return Raised("IntegrityError");
      }
      resetTokens := resetTokens[token := ResetToken(found.value.userId, now, now + 3600, false)];
      r := Returned(Some(token));
    }

    /** A reset token that `reset_password` accepts at `now`. */
    predicate TokenUsable(token: string, now: int)
      reads this
    {
      token in resetTokens && !resetTokens[token].used && now <= resetTokens[token].expiresAt
    }

    /** `reset_password`: an unknown, used or expired token gives False and
        changes nothing; otherwise the token's user gets the new password
        and the token is used up, so it is refused from then on. */
    method ResetPassword(token: string, newPassword: string, newSalt: string, now: int) returns (ok: bool)
      requires Valid()
      modifies this
      ensures Valid()
      ensures ok == old(TokenUsable(token, now))
      ensures ok ==> var uid := old(resetTokens[token].userId);
        users == Modified(old(users), uid, Credentials(HashPassword(newPassword, newSalt), newSalt))
        && resetTokens == old(resetTokens)[token := old(resetTokens[token]).(used := true)]
        && (Find(users, UserIdOf, uid).Some? ==> PasswordMatches(uid, newPassword))
      ensures !ok ==> users == old(users) && resetTokens == old(resetTokens)
      ensures ok ==> forall t :: !TokenUsable(token, t)
      ensures sessions == old(sessions) && grants == old(grants)
    {
      if token !in resetTokens {
        return false;
      }
      var entry := resetTokens[token];
      if entry.used || entry.expiresAt < now {
        return false;
      }
      var c := Credentials(HashPassword(newPassword, newSalt), newSalt);
      FindModified(users, entry.userId, c, entry.userId);
      users := Modified(users, entry.userId, c);
      resetTokens := resetTokens[token := entry.(used := true)];
      ok := true;
    }

    /** `grant_permission`: INSERT OR IGNORE under UNIQUE(user_id,
        permission). */
    method GrantPermission(userId: string, permission: string, grantedBy: Option<string>, now: int)
      modifies this
      ensures grants == Granted(old(grants), userId, permission, grantedBy, now)
      ensures Allowed(grants, users, userId, permission)
      ensures users == old(users) && sessions == old(sessions) && resetTokens == old(resetTokens)
    {
      grants := Granted(grants, userId, permission, grantedBy, now);
    }
  }
}
