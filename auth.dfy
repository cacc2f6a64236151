/**
 * Accounts: registration with a one-time code sent by email, verification of that code,
 * re-issuing it, and login. Hashing and comparing passwords, signing tokens, generating
 * codes and sending mail are done by libraries; their results are parameters here.
 */
module Auth {
  import opened Wrappers
  import opened Types
  import opened Errors
  import opened Records
  import Text
  import Clock
  import Seqs
  import Store

  /** A one-time code is valid for this many minutes after it is issued. */
  const OtpMinutes: int := 10

  /** `createToken`: the signed payload is the user's id, email and role. */
  function TokenPayload(u: User): JwtPayload {
    JwtPayload(u.id, u.email, u.role)
  }

  // ---------------------------------------------------------------- register

  /** The validators of the new user, run on the name and email after the setters. */
  function RegistrationFailures(name: string, email: string, password: string): seq<PathFailure> {
    UserFailures(Text.Trim(name), NormalizeEmail(email), password)
  }

  /**
   * The user `register` stores: trimmed name, normalized email, the password's hash, role
   * `user`, unverified and unblocked, a code expiring ten minutes after `now`, no package.
   */
  function Registered(id: nat, name: string, email: string, hash: string, otpCode: string, now: int): User {
    Records.User.User(id, Text.Trim(name), NormalizeEmail(email), hash, UserRole.User, false, false,
         Some(otpCode), Some(Clock.OtpExpiry(now, OtpMinutes)), None, now)
  }

  /** A registration that passed the validators stores a valid user. */
  lemma RegisteredIsValid(id: nat, name: string, email: string, password: string, hash: string, otpCode: string, now: int)
    requires RegistrationFailures(name, email, password) == []
    ensures ValidUser(Registered(id, name, email, hash, otpCode, now))
  {
    NormalizeEmailIdempotent(email);
  }

  /**
   * `register`: a taken email fails with EMAIL_EXISTS, a refused field with the schema's
   * validation error; otherwise the new user is appended under a fresh id and the response
   * carries the stored (normalized) email.
   */
  method Register(db: Store.Db, name: string, email: string, password: string, hash: string, otpCode: string, now: int)
    returns (r: Result<string>)
    requires db.Valid()
    modifies db`users, db`nextId
    ensures db.Valid()
    ensures FindByEmail(old(db.users), email).Some? ==> r == Raise(EmailExists) && unchanged(db)
    ensures FindByEmail(old(db.users), email).None? && RegistrationFailures(name, email, password) != [] ==>
      r == Err(Invalid("User", RegistrationFailures(name, email, password))) && unchanged(db)
    ensures FindByEmail(old(db.users), email).None? && RegistrationFailures(name, email, password) == [] ==>
      && r == Ok(NormalizeEmail(email))
      && db.nextId == old(db.nextId) + 1
      && db.users == old(db.users) + [Registered(old(db.nextId), name, email, hash, otpCode, now)]
  {
    if FindByEmail(db.users, email).Some? {
      return Raise(EmailExists);
    }
    var failures := RegistrationFailures(name, email, password);
    if failures != [] {
      return Err(Invalid("User", failures));
    }
    r := AddRegistered(db, name, email, password, hash, otpCode, now);
  }

  /** The success path of `register`: the new user saved under a fresh id. */
  method AddRegistered(db: Store.Db, name: string, email: string, password: string, hash: string, otpCode: string, now: int)
    returns (r: Result<string>)
    requires db.Valid()
    requires FindByEmail(db.users, email).None? && RegistrationFailures(name, email, password) == []
    modifies db`users, db`nextId
    ensures db.Valid()
    ensures r == Ok(NormalizeEmail(email))
    ensures db.nextId == old(db.nextId) + 1
    ensures db.users == old(db.users) + [Registered(old(db.nextId), name, email, hash, otpCode, now)]
  {
    assert forall x | x in db.users :: x.id < db.nextId;
    var id := db.NewId();
    var u := Registered(id, name, email, hash, otpCode, now);
    RegisteredIsValid(id, name, email, password, hash, otpCode, now);
    db.AddUser(u);
    r := Ok(u.email);
  }

  // ---------------------------------------------------------------- one-time codes

  /**
   * The code test of `verifyOTP`: a stored, non-empty code equal to the submitted one and a
   * stored expiry that has not been reached. Every failure is INVALID_OTP.
   */
  function CheckOtp(u: User, otp: string, now: int): (r: Result<()>)
    ensures r.Ok? <==>
      u.otpCode == Some(otp) && otp != [] && u.otpExpiry.Some? && Clock.IsOtpValid(u.otpExpiry.value, now)
    ensures r.Err? ==> r == Raise(InvalidOtp)
  {
    if u.otpCode.None? || u.otpCode.value == [] || u.otpCode.value != otp then Raise(InvalidOtp)
    else if u.otpExpiry.None? || !Clock.IsOtpValid(u.otpExpiry.value, now) then Raise(InvalidOtp)
    else Ok(())
  }

  /** A verified account: the flag set and both code fields cleared; the password hash is kept. */
  function Verified(u: User): User {
    u.(isVerified := true, otpCode := None, otpExpiry := None)
  }

  /** A code re-issued at `now`, replacing both code fields. */
  function Reissued(u: User, otpCode: string, now: int): User {
    u.(otpCode := Some(otpCode), otpExpiry := Some(Clock.OtpExpiry(now, OtpMinutes)))
  }

  /**
   * `verifyOTP`: an unknown email fails with USER_NOT_FOUND and a failed code test with
   * INVALID_OTP, changing nothing; otherwise the account is verified in place and the token
   * payload is returned.
   */
  method VerifyOtp(db: Store.Db, email: string, otp: string, now: int) returns (r: Result<JwtPayload>)
    requires db.Valid()
    modifies db`users
    ensures db.Valid()
    ensures FindByEmail(old(db.users), email).None? ==> r == Raise(UserNotFound) && unchanged(db)
    ensures FindByEmail(old(db.users), email).Some? ==>
      var k := FindByEmail(old(db.users), email).value;
      && (CheckOtp(old(db.users)[k], otp, now).Err? ==> r == Raise(InvalidOtp) && unchanged(db))
      && (CheckOtp(old(db.users)[k], otp, now).Ok? ==>
            r == Ok(TokenPayload(old(db.users)[k])) && db.users == old(db.users)[k := Verified(old(db.users)[k])])
  {
    var k := FindByEmail(db.users, email);
    if k.None? {
      return Raise(UserNotFound);
    }
    var u := db.users[k.value];
    if CheckOtp(u, otp, now).Err? {
      return Raise(InvalidOtp);
    }
    assert ValidUser(u);
    db.ReplaceUser(k.value, Verified(u));
    r := Ok(TokenPayload(u));
  }

  /**
   * `resendOTP`: an unknown email fails with USER_NOT_FOUND; a verified account succeeds
   * without any change; otherwise both code fields are replaced.
   */
  method ResendOtp(db: Store.Db, email: string, otpCode: string, now: int) returns (r: Result<()>)
    requires db.Valid()
    modifies db`users
    ensures db.Valid()
    ensures FindByEmail(old(db.users), email).None? ==> r == Raise(UserNotFound) && unchanged(db)
    ensures FindByEmail(old(db.users), email).Some? ==>
      var k := FindByEmail(old(db.users), email).value;
      && r == Ok(())
      && (old(db.users)[k].isVerified ==> unchanged(db))
      && (!old(db.users)[k].isVerified ==> db.users == old(db.users)[k := Reissued(old(db.users)[k], otpCode, now)])
  {
    var k := FindByEmail(db.users, email);
    if k.None? {
      return Raise(UserNotFound);
    }
    var u := db.users[k.value];
    if u.isVerified {
      return Ok(());
    }
    assert ValidUser(u);
    db.ReplaceUser(k.value, Reissued(u, otpCode, now));
    r := Ok(());
  }

  /** A code just issued, at registration or again, verifies exactly while it is fresh and only as itself. */
  lemma FreshCodeVerifies(u: User, otpCode: string, issued: int, otp: string, now: int)
    ensures CheckOtp(Reissued(u, otpCode, issued), otp, now).Ok? <==>
      otp == otpCode && otpCode != [] && now - issued < OtpMinutes * Clock.MsPerMinute
  {
    Clock.OtpValidFor(issued, OtpMinutes, now);
  }

  /** The code a registration stores is the one a re-issue at the same instant would store. */
  lemma RegisteredCodeIsFresh(id: nat, name: string, email: string, hash: string, otpCode: string, now: int)
    ensures Registered(id, name, email, hash, otpCode, now)
      == Reissued(Registered(id, name, email, hash, otpCode, now), otpCode, now)
  {
  }

  /**
   * A successful verification cannot be replayed: the account is still found by the same
   * email, and the same code, or any other, now fails with INVALID_OTP at any later time.
   */
  lemma {:induction false} ReplayFails(users: seq<User>, email: string, otp: string, now: int, later: int)
    requires FindByEmail(users, email).Some?
    requires CheckOtp(users[FindByEmail(users, email).value], otp, now).Ok?
    ensures var k := FindByEmail(users, email).value;
      && FindByEmail(users[k := Verified(users[k])], email) == Some(k)
      && CheckOtp(Verified(users[k]), otp, later) == Raise(InvalidOtp)
  {
    var k := FindByEmail(users, email).value;
    Seqs.FindFirstUpdate(users, k, Verified(users[k]), (u: User) => u.email == NormalizeEmail(email));
  }

  // ---------------------------------------------------------------- login

  /**
   * `login`: the checks run in this order — unknown email, blocked, unverified, wrong
   * password — and the first one that applies decides the error; otherwise the token
   * payload of the account is returned.
   */
  function Login(users: seq<User>, email: string, password: string, compare: (string, string) -> bool)
    : (r: Result<JwtPayload>)
    ensures FindByEmail(users, email).None? ==> r == Raise(InvalidCredentials)
    ensures FindByEmail(users, email).Some? ==>
      var u := users[FindByEmail(users, email).value];
      && (u.isBlocked ==> r == Raise(UserBlocked))
      && (!u.isBlocked && !u.isVerified ==> r == Raise(UserNotVerified))
      && (!u.isBlocked && u.isVerified && !compare(password, u.password) ==> r == Raise(InvalidCredentials))
    ensures r.Ok? <==>
      exists k | 0 <= k < |users| :: FindByEmail(users, email) == Some(k)
        && !users[k].isBlocked && users[k].isVerified && compare(password, users[k].password)
    ensures r.Ok? ==> r.value.email == NormalizeEmail(email)
  {
    match FindByEmail(users, email)
    case None => Raise(InvalidCredentials)
    case Some(k) =>
      var u := users[k];
      if u.isBlocked then Raise(UserBlocked)
      else if !u.isVerified then Raise(UserNotVerified)
      else if !compare(password, u.password) then Raise(InvalidCredentials)
      else Ok(TokenPayload(u))
  }

  /**
   * The account state is checked before the password: for a blocked or unverified account
   * every password gets the same answer.
   */
  lemma StateBeforePassword(users: seq<User>, email: string, p1: string, p2: string, compare: (string, string) -> bool)
    requires FindByEmail(users, email).Some?
    requires var u := users[FindByEmail(users, email).value]; u.isBlocked || !u.isVerified
    ensures Login(users, email, p1, compare) == Login(users, email, p2, compare)
    ensures Login(users, email, p1, compare).Err?
  {
  }

  /** A user who has just registered cannot log in, whatever the password, until verified. */
  lemma {:induction false} RegisteredCannotLogIn(users: seq<User>, id: nat, name: string, email: string, hash: string,
                                                  otpCode: string, now: int, password: string, compare: (string, string) -> bool)
    requires FindByEmail(users, email).None?
    ensures Login(users + [Registered(id, name, email, hash, otpCode, now)], email, password, compare)
      == Raise(UserNotVerified)
  {
    Seqs.FindFirstSnoc(users, Registered(id, name, email, hash, otpCode, now), (u: User) => u.email == NormalizeEmail(email));
  }

  /**
   * After a successful verification an unblocked account logs in with its password, and
   * the token carries the same payload as the one verification returned.
   */
  lemma {:induction false} VerifiedLogsIn(users: seq<User>, email: string, password: string,
                                           compare: (string, string) -> bool)
    requires FindByEmail(users, email).Some?
    requires var u := users[FindByEmail(users, email).value]; !u.isBlocked && compare(password, u.password)
    ensures var k := FindByEmail(users, email).value;
      Login(users[k := Verified(users[k])], email, password, compare) == Ok(TokenPayload(users[k]))
  {
    var k := FindByEmail(users, email).value;
    Seqs.FindFirstUpdate(users, k, Verified(users[k]), (u: User) => u.email == NormalizeEmail(email));
  }
}
