/**
 * user_management/authentication.py: logins checked against a lockout rule,
 * eight-hour sessions, a log of every login attempt, password changes and
 * single-use reset tokens, and the default administrator account.
 *
 * Tables are sequences of rows in rowid order (module Tables); `id INTEGER
 * PRIMARY KEY AUTOINCREMENT` is the counter `nextUserId`.  The clock (`now`,
 * in seconds; CURRENT_TIMESTAMP and datetime('now') read the same clock),
 * the random session and reset tokens, and the three `security` settings of
 * the configuration file are arguments.  SHA-256 is `Common.Sha256`.
 */
module Authentication {
  import opened Common
  import opened Tables

  /** A users row (the columns this component reads or writes). */
  datatype AuthUser = AuthUser(
    id: int,
    username: string,
    passwordHash: Digest,
    email: Option<string>,
    fullName: Option<string>,
    department: Option<string>,
    role: string,
    lastLogin: Option<int>,
    isActive: bool)

  /** A sessions row, UNIQUE(token). */
  datatype AuthSession = AuthSession(
    userId: int, token: string, createdAt: int, expiresAt: int, ipAddress: Option<string>, isActive: bool)

  /** A login_attempts row. */
  datatype LoginAttempt = LoginAttempt(
    username: string, ipAddress: Option<string>, time: int, success: bool, errorMessage: Option<string>)

  /** A password_reset_tokens row, UNIQUE(token). */
  datatype ResetRow = ResetRow(userId: int, token: string, createdAt: int, expiresAt: int, used: bool)

  /** The user information dictionary handed back on success. */
  datatype UserInfo = UserInfo(
    id: int, username: string, role: string, fullName: Option<string>, email: Option<string>,
    department: Option<string>, sessionToken: Option<string>)

  /** authenticate's `(success, user_info, error)`. */
  datatype AuthResult = AuthResult(success: bool, info: Option<UserInfo>, error: Option<string>)

  function IdOf(u: AuthUser): int { u.id }
  function NameOf(u: AuthUser): string { u.username }
  function EmailOf(u: AuthUser): Option<string> { u.email }
  function TokenOf(s: AuthSession): string { s.token }
  function ResetTokenOf(t: ResetRow): string { t.token }

  /** Defaults of the `security` settings. */
  const DefaultPasswordSalt: string := "broetje_salt"
  const DefaultLockoutMinutes: int := 30
  const DefaultMaxAttempts: int := 5

  /** Lifetime of a session and of a reset token, in seconds. */
  const SessionSeconds: int := 8 * 3600
  const ResetSeconds: int := 3600

  const AdminEmail: string := "admin@broetje.com"

  /** The UNIQUE constraints of the users table; NULL emails never clash. */
  predicate UsersUnique(users: seq<AuthUser>)
  {
    UniqueKeys(users, IdOf) && UniqueKeys(users, NameOf)
    && forall i, j :: 0 <= i < j < |users| && users[i].email.Some? ==> users[i].email != users[j].email
  }

  function Info(u: AuthUser, token: Option<string>): UserInfo
  {
    UserInfo(u.id, u.username, u.role, u.fullName, u.email, u.department, token)
  }

  // ---------------------------------------------------------------------
  // Lockout.

  /** `COUNT(*)` of the failed attempts of `username` made strictly after
      `since`. */
  function FailedSince(attempts: seq<LoginAttempt>, username: string, since: int): (n: nat)
    ensures n <= |attempts|
  {
    if |attempts| == 0 then 0
    else
      var a := attempts[|attempts| - 1];
      FailedSince(attempts[..|attempts| - 1], username, since)
        + (if a.username == username && !a.success && a.time > since then 1 else 0)
  }

  /** Appending an attempt adds one to the count exactly when it is a failed
      attempt of that user inside the window; nothing else moves it. */
  lemma FailedSinceSnoc(attempts: seq<LoginAttempt>, a: LoginAttempt, username: string, since: int)
    ensures FailedSince(attempts + [a], username, since) ==
      FailedSince(attempts, username, since) + (if a.username == username && !a.success && a.time > since then 1 else 0)
  {
    assert (attempts + [a])[..|attempts|] == attempts;
  }

  /** `_is_user_locked_out`: at least `maxAttempts` failed attempts in the
      last `lockoutMinutes` minutes. */
  predicate LockedOut(attempts: seq<LoginAttempt>, username: string, now: int, lockoutMinutes: int, maxAttempts: int)
  {
    FailedSince(attempts, username, now - lockoutMinutes * 60) >= maxAttempts
  }

  /** `maxAttempts` refused logins in the same second lock the user out for
      the whole window. */
  lemma {:induction false} RepeatedFailuresLock(attempts: seq<LoginAttempt>, username: string, ip: Option<string>,
                                                notes: seq<Option<string>>, now: int, lockoutMinutes: int, t: int)
    requires lockoutMinutes > 0 && now <= t < now + lockoutMinutes * 60
    ensures FailedSince(attempts + seq(|notes|, i requires 0 <= i < |notes| => LoginAttempt(username, ip, now, false, notes[i])),
                        username, t - lockoutMinutes * 60) >= |notes|
    decreases |notes|
  {
    var f := (ns: seq<Option<string>>) => seq(|ns|, i requires 0 <= i < |ns| => LoginAttempt(username, ip, now, false, ns[i]));
    if |notes| > 0 {
      var prev := notes[..|notes| - 1];
      RepeatedFailuresLock(attempts, username, ip, prev, now, lockoutMinutes, t);
      var a := LoginAttempt(username, ip, now, false, notes[|notes| - 1]);
      assert attempts + f(notes) == (attempts + f(prev)) + [a];
      FailedSinceSnoc(attempts + f(prev), a, username, t - lockoutMinutes * 60);
    }
  }

  // ---------------------------------------------------------------------
  // The order of the login checks.

  datatype Refusal = Locked | UnknownUser | InactiveAccount | WrongPassword

  /** The first check a login fails, in the order lockout, unknown user,
      inactive account, wrong password; None when it passes them all. */
  function Verdict(locked: bool, found: Option<AuthUser>, given: Digest): (r: Option<Refusal>)
    ensures r.None? <==> !locked && found.Some? && found.value.isActive && found.value.passwordHash == given
    ensures r == Some(Locked) <==> locked
    ensures r == Some(WrongPassword) <==>
      !locked && found.Some? && found.value.isActive && found.value.passwordHash != given
    ensures r == Some(UnknownUser) <==> !locked && found.None?
    ensures r == Some(InactiveAccount) <==> !locked && found.Some? && !found.value.isActive
  {
    if locked then Some(Locked)
    else if found.None? then Some(UnknownUser)
    else if !found.value.isActive then Some(InactiveAccount)
    else if found.value.passwordHash != given then Some(WrongPassword)
    else None
  }

  /** The error message returned for a refusal. */
  function Message(r: Refusal): string
  {
    match r
    case Locked => "Account temporarily locked due to multiple failed login attempts"
    case UnknownUser => "Invalid username or password"
    case InactiveAccount => "Account is inactive"
    case WrongPassword => "Invalid username or password"
  }

  /** The error message logged with the attempt. */
  function Note(r: Refusal): string
  {
    match r
    case Locked => "Account temporarily locked"
    case UnknownUser => "User not found"
    case InactiveAccount => "Account inactive"
    case WrongPassword => "Invalid password"
  }

  /** An unknown username and a wrong password are indistinguishable to the
      caller, though the attempt log tells them apart. */
  lemma RefusalsAlike()
    ensures Message(UnknownUser) == Message(WrongPassword) && Note(UnknownUser) != Note(WrongPassword)
  {
  }

  // ---------------------------------------------------------------------
  // Updates of one user row.

  datatype Patch = LastLogin(at: int) | PasswordHash(hash: Digest)

  function ApplyPatch(u: AuthUser, p: Patch): AuthUser
  {
    match p
    case LastLogin(t) => u.(lastLogin := Some(t))
    case PasswordHash(h) => u.(passwordHash := h)
  }

  /** `UPDATE users SET ... WHERE id = ?`. */
  function Patched(users: seq<AuthUser>, id: int, p: Patch): (r: seq<AuthUser>)
    ensures |r| == |users|
    ensures forall i :: 0 <= i < |users| ==>
      r[i].id == users[i].id && r[i].username == users[i].username && r[i].email == users[i].email
  {
    seq(|users|, i requires 0 <= i < |users| => if users[i].id == id then ApplyPatch(users[i], p) else users[i])
  }

  /** An UPDATE by id keeps the UNIQUE constraints and changes the row with
      that id and no other. */
  lemma {:induction false} FindPatched(users: seq<AuthUser>, id: int, p: Patch, k: int)
    ensures UsersUnique(users) ==> UsersUnique(Patched(users, id, p))
    ensures Find(Patched(users, id, p), IdOf, k) ==
      match Find(users, IdOf, k)
      case None => None
      case Some(x) => Some(if k == id then ApplyPatch(x, p) else x)
    decreases |users|
  {
    var m := Patched(users, id, p);
    if UsersUnique(users) {
      SameKeysUnique(users, m, IdOf);
      SameKeysUnique(users, m, NameOf);
      forall i, j | 0 <= i < j < |m| && m[i].email.Some? ensures m[i].email != m[j].email {
        assert m[i].email == users[i].email && m[j].email == users[j].email;
      }
    }
    if |users| > 0 {
      assert m[1..] == Patched(users[1..], id, p);
      FindPatched(users[1..], id, p, k);
    }
  }

  /** An UPDATE by id keeps every id below the next AUTOINCREMENT value. */
  lemma PatchedIdsBelow(users: seq<AuthUser>, id: int, p: Patch, next: int)
    requires forall u :: u in users ==> u.id < next
    ensures forall u :: u in Patched(users, id, p) ==> u.id < next
  {
    var m := Patched(users, id, p);
    forall u | u in m ensures u.id < next {
      var i :| 0 <= i < |m| && m[i] == u;
      assert users[i] in users;
    }
  }

  /** The tables after a login: the new session is found by its token and
      the patched user by its id, and the constraints still hold. */
  lemma AdmitTables(users: seq<AuthUser>, sessions: seq<AuthSession>, next: int, u: AuthUser, s: AuthSession, p: Patch)
    requires UsersUnique(users) && (forall v :: v in users ==> v.id < next) && u in users
    requires UniqueKeys(sessions, TokenOf) && Find(sessions, TokenOf, s.token).None?
    ensures UsersUnique(Patched(users, u.id, p)) && (forall v :: v in Patched(users, u.id, p) ==> v.id < next)
    ensures Find(Patched(users, u.id, p), IdOf, u.id).Some?
    ensures UniqueKeys(sessions + [s], TokenOf) && Find(sessions + [s], TokenOf, s.token) == Some(s)
  {
    SessionsSnoc(sessions, s);
    FindUnique(sessions + [s], TokenOf, s);
    FindUnique(users, IdOf, u);
    FindPatched(users, u.id, p, u.id);
    PatchedIdsBelow(users, u.id, p, next);
  }

  /** The refusal of a reset token, in the order invalid, already used,
      expired; None when the token may be used. */
  function ResetVerdict(found: Option<ResetRow>, now: int): (r: Option<string>)
    ensures r.None? <==> found.Some? && !found.value.used && now <= found.value.expiresAt
    ensures found.None? ==> r == Some("Invalid reset token")
    ensures found.Some? && found.value.used ==> r == Some("Reset token has already been used")
  {
    if found.None? then Some("Invalid reset token")
    else if found.value.used then Some("Reset token has already been used")
    else if found.value.expiresAt < now then Some("Reset token has expired")
    else None
  }

  class AuthenticationManager {
    var users: seq<AuthUser>
    /** The next AUTOINCREMENT id of the users table. */
    var nextUserId: int
    var sessions: seq<AuthSession>
    var attempts: seq<LoginAttempt>
    var resetTokens: seq<ResetRow>
    /** `security.password_salt`, `lockout_period_minutes` and
        `max_login_attempts`. */
    const passwordSalt: string
    const lockoutMinutes: int
    const maxAttempts: int

    predicate Valid()
      reads this
    {
      UsersUnique(users) && (forall u :: u in users ==> u.id < nextUserId)
      && UniqueKeys(sessions, TokenOf) && UniqueKeys(resetTokens, ResetTokenOf)
    }

    /** The tables as `ensure_tables_exist` finds them; `__init__` goes on
        with CreateDefaultAdmin. */
    constructor (users: seq<AuthUser>, nextUserId: int, sessions: seq<AuthSession>, attempts: seq<LoginAttempt>,
                 resetTokens: seq<ResetRow>, passwordSalt: string, lockoutMinutes: int, maxAttempts: int)
      requires UsersUnique(users) && (forall u :: u in users ==> u.id < nextUserId)
      requires UniqueKeys(sessions, TokenOf) && UniqueKeys(resetTokens, ResetTokenOf)
      ensures Valid()
      ensures this.users == users && this.nextUserId == nextUserId && this.sessions == sessions
      ensures this.attempts == attempts && this.resetTokens == resetTokens
      ensures this.passwordSalt == passwordSalt && this.lockoutMinutes == lockoutMinutes
      ensures this.maxAttempts == maxAttempts
    {
      this.users, this.nextUserId, this.sessions := users, nextUserId, sessions;
      this.attempts, this.resetTokens := attempts, resetTokens;
      this.passwordSalt, this.lockoutMinutes, this.maxAttempts := passwordSalt, lockoutMinutes, maxAttempts;
    }

    /** `_hash_password`: the digest of the password followed by the
        configured salt. */
    function HashPassword(password: string): Digest
      reads this
    {
      Sha256(password + passwordSalt)
    }

    /** `_create_default_admin`: an `admin` account (password `admin123`) is
        inserted only when no account of that name exists.  When another
        account already holds the administrator's email the INSERT raises
        (`ok` false) and nothing changes. */
    method CreateDefaultAdmin() returns (ok: bool)
      requires Valid()
      modifies this
      ensures Valid()
      ensures if Find(old(users), NameOf, "admin").Some? then ok && users == old(users) && nextUserId == old(nextUserId)
        else if Find(old(users), EmailOf, Some(AdminEmail)).Some? then !ok && users == old(users) && nextUserId == old(nextUserId)
        else ok && nextUserId == old(nextUserId) + 1 && users == old(users) + [AuthUser(old(nextUserId), "admin",
          HashPassword("admin123"), Some(AdminEmail), Some("System Administrator"), None, "admin", None, true)]
      ensures ok ==> Find(users, NameOf, "admin").Some?
      ensures sessions == old(sessions) && attempts == old(attempts) && resetTokens == old(resetTokens)
    {
      if Find(users, NameOf, "admin").Some? {
        return true;
      }
      if Find(users, EmailOf, Some(AdminEmail)).Some? {
        return false;
      }
      var admin := AuthUser(nextUserId, "admin", HashPassword("admin123"), Some(AdminEmail),
        Some("System Administrator"), None, "admin", None, true);
      UsersSnoc(users, admin);
      users := users + [admin];
      nextUserId := nextUserId + 1;
      FindUnique(users, NameOf, admin);
      ok := true;
    }

    /** The user joined to an active session with the token. */
    function JoinedUser(token: string): (r: Option<AuthUser>)
      reads this
      ensures r.Some? ==> (Find(sessions, TokenOf, token).Some? && Find(sessions, TokenOf, token).value.isActive
        && r.value.id == Find(sessions, TokenOf, token).value.userId)
    {
      match Find(sessions, TokenOf, token)
      case None => None
      case Some(s) => if s.isActive then Find(users, IdOf, s.userId) else None
    }

    /** Whether `validate_session` accepts the token at `now`: an active
        session of an existing user that has not expired. */
    predicate SessionLive(token: string, now: int)
      reads this
    {
      JoinedUser(token).Some? && now <= Find(sessions, TokenOf, token).value.expiresAt
    }

    /** `authenticate`: the first failed check is logged as one failed
        attempt and reported; a login passing every check opens a session
        for eight hours, records the login time and is logged as one
        successful attempt.  A clashing session token is caught as
        "Authentication failed" with nothing stored or logged. */
    method Authenticate(username: string, password: string, ipAddress: Option<string>, token: string, now: int)
      returns (r: AuthResult)
      requires Valid()
      modifies this
      ensures Valid()
      ensures var v := Verdict(LockedOut(old(attempts), username, now, lockoutMinutes, maxAttempts),
          Find(old(users), NameOf, username), HashPassword(password));
        if v.Some? then
          r == AuthResult(false, None, Some(Message(v.value))) && users == old(users) && sessions == old(sessions)
          && attempts == old(attempts) + [LoginAttempt(username, ipAddress, now, false, Some(Note(v.value)))]
        else if Find(old(sessions), TokenOf, token).Some? then
          r == AuthResult(false, None, Some("Authentication failed"))
          && users == old(users) && sessions == old(sessions) && attempts == old(attempts)
        else
          var u := Find(old(users), NameOf, username).value;
          r == AuthResult(true, Some(Info(u, Some(token))), None)
          && sessions == old(sessions) + [AuthSession(u.id, token, now, now + SessionSeconds, ipAddress, true)]
          && users == Patched(old(users), u.id, LastLogin(now))
          && attempts == old(attempts) + [LoginAttempt(username, ipAddress, now, true, None)]
      ensures r.success ==> forall t :: t <= now + SessionSeconds ==> SessionLive(token, t)
      ensures !r.success && lockoutMinutes > 0 && |attempts| > |old(attempts)| ==>
        FailedSince(attempts, username, now - lockoutMinutes * 60)
          == old(FailedSince(attempts, username, now - lockoutMinutes * 60)) + 1
      ensures nextUserId == old(nextUserId) && resetTokens == old(resetTokens)
    {
      var locked := LockedOut(attempts, username, now, lockoutMinutes, maxAttempts);
      var found := Find(users, NameOf, username);
      var v := Verdict(locked, found, HashPassword(password));
      if v.Some? {
        var a := LoginAttempt(username, ipAddress, now, false, Some(Note(v.value)));
        FailedSinceSnoc(attempts, a, username, now - lockoutMinutes * 60);
        attempts := attempts + [a];
        return AuthResult(false, None, Some(Message(v.value)));
      }
      if Find(sessions, TokenOf, token).Some? {
        return AuthResult(false, None, Some("Authentication failed"));
      }
      // The successful attempt is logged after the commit; it touches
      // neither sessions nor users, so it is appended first here.
      attempts := attempts + [LoginAttempt(username, ipAddress, now, true, None)];
      Admit(found.value, ipAddress, token, now);
      r := AuthResult(true, Some(Info(found.value, Some(token))), None);
    }

    /** The success path of `authenticate`: the session row is inserted and
        the login time recorded; the session then validates until it
        expires. */
    method Admit(u: AuthUser, ipAddress: Option<string>, token: string, now: int)
      requires Valid() && u in users && Find(sessions, TokenOf, token).None?
      modifies this
      ensures Valid()
      ensures sessions == old(sessions) + [AuthSession(u.id, token, now, now + SessionSeconds, ipAddress, true)]
      ensures users == Patched(old(users), u.id, LastLogin(now))
      ensures forall t :: t <= now + SessionSeconds ==> SessionLive(token, t)
      ensures attempts == old(attempts) && nextUserId == old(nextUserId) && resetTokens == old(resetTokens)
    {
      var s := AuthSession(u.id, token, now, now + SessionSeconds, ipAddress, true);
      var before, open := users, sessions;
      sessions, users := open + [s], Patched(before, u.id, LastLogin(now));
      assert attempts == old(attempts) && nextUserId == old(nextUserId) && resetTokens == old(resetTokens);
      AdmitTables(before, open, nextUserId, u, s, LastLogin(now));
      assert JoinedUser(token).Some?;
    }

    /** `validate_session`: a token without an active session of an
        existing user gives `(False, None)`; an expired one is deactivated
        and gives `(False, None)`; otherwise the user's information. */
    method ValidateSession(token: string, now: int) returns (ok: bool, info: Option<UserInfo>)
      requires Valid()
      modifies this
      ensures Valid()
      ensures ok == old(SessionLive(token, now)) && (ok <==> info.Some?)
      ensures ok ==> JoinedUser(token).Some? && info == Some(Info(JoinedUser(token).value, None))
      ensures var s := old(Find(sessions, TokenOf, token));
        sessions == if s.Some? && s.value.isActive && Find(users, IdOf, s.value.userId).Some? && s.value.expiresAt < now
          then Update(old(sessions), TokenOf, s.value.(isActive := false)) else old(sessions)
      ensures !ok ==> forall t :: t >= now ==> !SessionLive(token, t)
      ensures users == old(users) && nextUserId == old(nextUserId)
      ensures attempts == old(attempts) && resetTokens == old(resetTokens)
    {
      var found := Find(sessions, TokenOf, token);
      if found.None? || !found.value.isActive || Find(users, IdOf, found.value.userId).None? {
        return false, None;
      }
      var s := found.value;
      if s.expiresAt < now {
        var closed := s.(isActive := false);
        FindUpdate(sessions, TokenOf, closed, token);
        sessions := Update(sessions, TokenOf, closed);
        return false, None;
      }
      ok, info := true, Some(Info(Find(users, IdOf, s.userId).value, None));
    }

    /** `logout`: the session with the token becomes inactive; True exactly
        when there was one.  Afterwards the token never validates. */
    method Logout(token: string) returns (ok: bool)
      requires Valid()
      modifies this
      ensures Valid()
      ensures var s := old(Find(sessions, TokenOf, token));
        ok == s.Some? && sessions == if s.Some? then Update(old(sessions), TokenOf, s.value.(isActive := false)) else old(sessions)
      ensures forall t :: !SessionLive(token, t)
      ensures users == old(users) && nextUserId == old(nextUserId)
      ensures attempts == old(attempts) && resetTokens == old(resetTokens)
    {
      var found := Find(sessions, TokenOf, token);
      if found.None? {
        return false;
      }
      var closed := found.value.(isActive := false);
      FindUpdate(sessions, TokenOf, closed, token);
      sessions := Update(sessions, TokenOf, closed);
      ok := true;
    }

    /** Whether `password` is the current password of the user. */
    predicate PasswordIs(userId: int, password: string)
      reads this
    {
      match Find(users, IdOf, userId)
      case None => false
      case Some(u) => u.passwordHash == HashPassword(password)
    }

    /** `change_password`: an unknown user fails with the caught error, a
        wrong old password with "Current password is incorrect", both
        leaving the hash unchanged; otherwise the new password replaces the
        old one. */
    method ChangePassword(userId: int, oldPassword: string, newPassword: string) returns (ok: bool, error: Option<string>)
      requires Valid()
      modifies this
      ensures Valid()
      ensures ok == old(PasswordIs(userId, oldPassword)) && (ok <==> error.None?)
      ensures old(Find(users, IdOf, userId)).None? ==> error == Some("Failed to change password")
      ensures old(Find(users, IdOf, userId)).Some? && !ok ==> error == Some("Current password is incorrect")
      ensures ok ==> (users == Patched(old(users), userId, PasswordHash(HashPassword(newPassword)))
        && PasswordIs(userId, newPassword))
      ensures !ok ==> users == old(users)
      ensures nextUserId == old(nextUserId) && sessions == old(sessions)
      ensures attempts == old(attempts) && resetTokens == old(resetTokens)
    {
      var found := Find(users, IdOf, userId);
      if found.None? {
        return false, Some("Failed to change password");
      }
      if HashPassword(oldPassword) != found.value.passwordHash {
        return false, Some("Current password is incorrect");
      }
      FindPatched(users, userId, PasswordHash(HashPassword(newPassword)), userId);
      users := Patched(users, userId, PasswordHash(HashPassword(newPassword)));
      ok, error := true, None;
    }

    /** `create_password_reset_token`: None for an unknown email or a
        clashing token (the error is caught); otherwise a token valid for
        one hour is stored and returned. */
    method CreatePasswordResetToken(email: string, token: string, now: int) returns (r: Option<string>)
      requires Valid()
      modifies this
      ensures Valid()
      ensures var u := old(Find(users, EmailOf, Some(email)));
        if u.None? || old(Find(resetTokens, ResetTokenOf, token)).Some? then r.None? && resetTokens == old(resetTokens)
        else r == Some(token) && resetTokens == old(resetTokens) + [ResetRow(u.value.id, token, now, now + ResetSeconds, false)]
      ensures users == old(users) && nextUserId == old(nextUserId)
      ensures sessions == old(sessions) && attempts == old(attempts)
    {
      var u := Find(users, EmailOf, Some(email));
      if u.None? || Find(resetTokens, ResetTokenOf, token).Some? {
        return None;
      }
      var row := ResetRow(u.value.id, token, now, now + ResetSeconds, false);
      ResetSnoc(resetTokens, row);
      resetTokens := resetTokens + [row];
      r := Some(token);
    }

    /** `reset_password`: fails in the order invalid, already used,
        expired, changing nothing; on success the token's user gets the new
        password and the token is marked used, so every later use fails as
        already used. */
    method ResetPassword(token: string, newPassword: string, now: int) returns (ok: bool, error: Option<string>)
      requires Valid()
      modifies this
      ensures Valid()
      ensures error == ResetVerdict(old(Find(resetTokens, ResetTokenOf, token)), now) && (ok <==> error.None?)
      ensures ok ==> var t := old(Find(resetTokens, ResetTokenOf, token)).value;
        users == Patched(old(users), t.userId, PasswordHash(HashPassword(newPassword)))
        && resetTokens == Update(old(resetTokens), ResetTokenOf, t.(used := true))
      ensures ok ==> forall t :: ResetVerdict(Find(resetTokens, ResetTokenOf, token), t) == Some("Reset token has already been used")
      ensures !ok ==> users == old(users) && resetTokens == old(resetTokens)
      ensures nextUserId == old(nextUserId) && sessions == old(sessions) && attempts == old(attempts)
    {
      var found := Find(resetTokens, ResetTokenOf, token);
      var v := ResetVerdict(found, now);
      if v.Some? {
        return false, v;
      }
      var t := found.value;
      var patch := PasswordHash(HashPassword(newPassword));
      var before, rows := users, resetTokens;
      users, resetTokens := Patched(before, t.userId, patch), Update(rows, ResetTokenOf, t.(used := true));
      ok, error := true, None;
      assert nextUserId == old(nextUserId) && sessions == old(sessions) && attempts == old(attempts);
      FindPatched(before, t.userId, patch, t.userId);
      PatchedIdsBelow(before, t.userId, patch, nextUserId);
      FindUpdate(rows, ResetTokenOf, t.(used := true), token);
    }
  }

  /** A row that clashes with no UNIQUE column keeps the users table
      valid. */
  lemma UsersSnoc(users: seq<AuthUser>, x: AuthUser)
    requires UsersUnique(users)
    requires Find(users, IdOf, x.id).None? && Find(users, NameOf, x.username).None?
    requires x.email.Some? ==> Find(users, EmailOf, x.email).None?
    ensures UsersUnique(users + [x])
  {
    var r := users + [x];
    forall i, j | 0 <= i < j < |r| && r[i].email.Some? ensures r[i].email != r[j].email {
      if j == |users| {
        assert r[i] in users;
      }
    }
  }

  /** A session with a fresh token keeps the tokens unique. */
  lemma SessionsSnoc(sessions: seq<AuthSession>, s: AuthSession)
    requires UniqueKeys(sessions, TokenOf) && Find(sessions, TokenOf, s.token).None?
    ensures UniqueKeys(sessions + [s], TokenOf)
  {
  }

  /** A reset row with a fresh token keeps the tokens unique. */
  lemma ResetSnoc(rows: seq<ResetRow>, t: ResetRow)
    requires UniqueKeys(rows, ResetTokenOf) && Find(rows, ResetTokenOf, t.token).None?
    ensures UniqueKeys(rows + [t], ResetTokenOf)
  {
  }
}
