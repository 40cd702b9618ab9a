/**
 * src/resolvers/authResolver.ts: sign-up with an e-mailed verification code,
 * account verification, password reset and change, re-issue of either code,
 * sign-in and access-token refresh, over the user table.
 *
 * The clock (`Date.now()`), the draw of `crypto.randomInt`, the id Prisma
 * gives a new user and the outcome of `sendOTPEmail` are parameters.
 */
module Auth {
  import opened Wrappers
  import opened Bcrypt
  import opened Schema
  import opened Jwt
  import Middleware
  import Utils

  /** Both one-time codes expire `10 * 60 * 1000` ms after they are issued. */
  const OtpLifetime := 10 * 60 * 1000
  const MinPasswordLength := 8

  /**
   * JavaScript's `length` of a string: its UTF-16 code units, so a character
   * outside the Basic Multilingual Plane (above U+FFFF) counts twice.
   */
  function Utf16Length(s: string): (n: nat)
    ensures |s| <= n <= 2 * |s|
  {
    if s == [] then 0 else (if s[0] as int > 0xFFFF then 2 else 1) + Utf16Length(s[1..])
  }

  /** A string of Basic Multilingual Plane characters is as long in code units as in characters. */
  lemma {:induction false} Utf16LengthOfBmp(s: string)
    requires forall i :: 0 <= i < |s| ==> s[i] as int <= 0xFFFF
    ensures Utf16Length(s) == |s|
  {
    if s != [] {
      Utf16LengthOfBmp(s[1..]);
    }
  }

  /** Four emoji make a password of the minimum length: each is a surrogate pair. */
  lemma FourEmojiAreLongEnough()
    ensures Utf16Length("\U{1F600}\U{1F600}\U{1F600}\U{1F600}") == MinPasswordLength
  {
    var s := "\U{1F600}\U{1F600}\U{1F600}\U{1F600}";
    assert s[1..][1..][1..][1..] == [];
  }

  /** `sendOTPEmail` either returns or throws with the mail transport's message. */
  datatype MailOutcome = Sent | MailFailed(reason: string)

  /** The fields of `UserCreateInput` that `signUp` reads. */
  datatype SignUpInput = SignUpInput(
    name: string, email: string, password: string, role: Role, dateOfBirth: int, phone: string)

  datatype SignInResponse = SignInResponse(user: User, accessToken: Token, refreshToken: Token)

  // ---------------------------------------------------------------------------
  // One-time codes
  // ---------------------------------------------------------------------------

  /** JavaScript compares a missing expiry (`null`) with a date as the number 0. */
  function ExpiryValue(expiry: Option<int>): int {
    expiry.GetOr(0)
  }

  /**
   * The code test of `verifyAccount` and `resetPassword`: rejected when the
   * stored code differs from the supplied one (a cleared code never equals a
   * string) or the expiry is earlier than now.
   */
  predicate OtpAccepted(stored: Option<string>, expiry: Option<int>, supplied: string, now: int) {
    stored == Some(supplied) && !(ExpiryValue(expiry) < now)
  }

  /** A freshly issued code is accepted up to and including its expiry instant, and only for itself. */
  lemma IssuedOtpWindow(otp: string, supplied: string, issued: int, now: int)
    ensures OtpAccepted(Some(otp), Some(issued + OtpLifetime), supplied, now)
      <==> supplied == otp && now <= issued + 600000
  {
  }

  /** A consumed (cleared) code accepts nothing, whatever the time. */
  lemma ClearedOtpRejected(expiry: Option<int>, supplied: string, now: int)
    ensures !OtpAccepted(None, expiry, supplied, now)
  {
  }

  // ---------------------------------------------------------------------------
  // signUp
  // ---------------------------------------------------------------------------

  /** All four checks of `signUp` pass. */
  predicate SignUpAccepted(users: seq<User>, input: SignUpInput, now: int) {
    && Utils.IsEmailValid(input.email)
    && FindUserByEmail(users, input.email).None?
    && input.dateOfBirth <= now
    && Utf16Length(input.password) >= MinPasswordLength
  }

  /** The row `signUp` creates: hashed password, unverified, verification code due in ten minutes. */
  function NewUser(id: string, input: SignUpInput, otp: string, now: int): User {
    User(id, input.email, input.name, Hash(input.password), input.role, input.dateOfBirth, input.phone,
         false, Some(otp), Some(now + OtpLifetime), None, None)
  }

  method SignUp(st: Store, input: SignUpInput, now: int, draw: int, freshId: string, mail: MailOutcome)
    returns (r: Result<User>)
    requires st.Valid()
    requires Utils.OtpMin <= draw < Utils.OtpMaxExclusive
    requires FindUserById(st.users, freshId).None? && freshId !in st.customers && freshId !in st.restaurants
    modifies st`users, st`customers, st`restaurants
    ensures st.Valid()
    ensures !Utils.IsEmailValid(input.email) ==> r == Err("Email is not valid")
    ensures Utils.IsEmailValid(input.email) && FindUserByEmail(old(st.users), input.email).Some? ==>
      r == Err("User already exists")
    ensures (Utils.IsEmailValid(input.email) && FindUserByEmail(old(st.users), input.email).None?
             && input.dateOfBirth > now) ==> r == Err("Date of birth should not be in the future")
    ensures (Utils.IsEmailValid(input.email) && FindUserByEmail(old(st.users), input.email).None?
             && input.dateOfBirth <= now && Utf16Length(input.password) < MinPasswordLength) ==>
      r == Err("Password should be minimum 8 characters long")
    ensures SignUpAccepted(old(st.users), input, now) && mail.MailFailed? ==> r == Err(mail.reason)
    ensures r.Ok? <==> SignUpAccepted(old(st.users), input, now) && mail.Sent?
    ensures r.Err? ==> st.users == old(st.users) && st.customers == old(st.customers) && st.restaurants == old(st.restaurants)
    ensures r.Ok? ==> r.value == NewUser(freshId, input, Utils.GenerateOtp(draw), now)
    ensures r.Ok? ==> st.users == old(st.users) + [r.value]
    ensures r.Ok? && input.role == Customer ==>
      st.customers == old(st.customers)[freshId := CustomerProfile(None, [])] && st.restaurants == old(st.restaurants)
    ensures r.Ok? && input.role == Restaurant ==>
      st.restaurants == old(st.restaurants) + {freshId} && st.customers == old(st.customers)
  {
    if !Utils.IsEmailValid(input.email) {
      return Err("Email is not valid");
    }
    if FindUserByEmail(st.users, input.email).Some? {
      return Err("User already exists");
    }
    if input.dateOfBirth > now {
      return Err("Date of birth should not be in the future");
    }
    if Utf16Length(input.password) < MinPasswordLength {
      return Err("Password should be minimum 8 characters long");
    }
    var hashedPassword := Hash(input.password);
    var otp := Utils.GenerateOtp(draw);
    // The code is mailed before the row is written: a failed mail creates nothing.
    if mail.MailFailed? {
      return Err(mail.reason);
    }
    var user := User(freshId, input.email, input.name, hashedPassword, input.role, input.dateOfBirth,
                     input.phone, false, Some(otp), Some(now + OtpLifetime), None, None);
    NewUserKeepsKeys(st.users, user);
    st.users := st.users + [user];
    if input.role == Customer {
      st.customers := st.customers[freshId := CustomerProfile(None, [])];
    } else {
      st.restaurants := st.restaurants + {freshId};
    }
    r := Ok(user);
  }

  // ---------------------------------------------------------------------------
  // verifyAccount, resetPassword, changePassword, requestOtp
  // ---------------------------------------------------------------------------

  /** A user with this e-mail exists and its verification code accepts `otp` at `now`. */
  predicate VerificationAccepted(users: seq<User>, email: string, otp: string, now: int) {
    match FindUserByEmail(users, email)
    case None => false
    case Some(i) => OtpAccepted(users[i].verificationOtp, users[i].verificationOtpExpiry, otp, now)
  }

  method VerifyAccount(st: Store, email: string, otp: string, now: int) returns (r: Result<bool>)
    requires st.Valid()
    modifies st`users
    ensures st.Valid()
    ensures r.Ok? <==> VerificationAccepted(old(st.users), email, otp, now)
    ensures r.Err? ==> r == Err("Invalid or expired OTP") && st.users == old(st.users)
    ensures r.Ok? ==> (r == Ok(true) &&
      var i := FindUserByEmail(old(st.users), email).value;
      st.users == old(st.users)[i := old(st.users)[i].(
        verification := true, verificationOtp := None, verificationOtpExpiry := None)])
  {
    var found := FindUserByEmail(st.users, email);
    if found.None? {
      return Err("Invalid or expired OTP");
    }
    var i := found.value;
    var user := st.users[i];
    if user.verificationOtp != Some(otp) || ExpiryValue(user.verificationOtpExpiry) < now {
      return Err("Invalid or expired OTP");
    }
    st.users := st.users[i := user.(verification := true, verificationOtp := None, verificationOtpExpiry := None)];
    r := Ok(true);
  }

  method ResetPassword(st: Store, email: string, otp: string, password: string, now: int)
    returns (r: Result<bool>)
    requires st.Valid()
    modifies st`users
    ensures st.Valid()
    ensures FindUserByEmail(old(st.users), email).None? ==> r == Err("No user found")
    ensures FindUserByEmail(old(st.users), email).Some? ==>
      var u := old(st.users)[FindUserByEmail(old(st.users), email).value];
      (r.Ok? <==> OtpAccepted(u.resetPassOtp, u.resetPassOtpExpiry, otp, now))
    ensures r.Err? && FindUserByEmail(old(st.users), email).Some? ==> r == Err("Invalid or expired OTP")
    ensures r.Err? ==> st.users == old(st.users)
    ensures r.Ok? ==> (r == Ok(true) &&
      var i := FindUserByEmail(old(st.users), email).value;
      st.users == old(st.users)[i := old(st.users)[i].(
        password := Hash(password), resetPassOtp := None, resetPassOtpExpiry := None)])
  {
    var found := FindUserByEmail(st.users, email);
    if found.None? {
      return Err("No user found");
    }
    var i := found.value;
    var user := st.users[i];
    if user.resetPassOtp != Some(otp) || ExpiryValue(user.resetPassOtpExpiry) < now {
      return Err("Invalid or expired OTP");
    }
    var hashedPassword := Hash(password);
    st.users := st.users[i := user.(password := hashedPassword, resetPassOtp := None, resetPassOtpExpiry := None)];
    r := Ok(true);
  }

  method ChangePassword(st: Store, caller: Claims, password: string, newPassword: string)
    returns (r: Result<bool>)
    requires st.Valid()
    modifies st`users
    ensures st.Valid()
    ensures FindUserById(old(st.users), caller.id).None? ==> r == Err("No user found")
    ensures FindUserById(old(st.users), caller.id).Some? ==>
      var u := old(st.users)[FindUserById(old(st.users), caller.id).value];
      && (!Matches(password, u.password) ==> r == Err("Incorrect old password"))
      && (Matches(password, u.password) && Utf16Length(newPassword) < MinPasswordLength ==>
            r == Err("New password must be at least 8 characters long."))
      && (r.Ok? <==> Matches(password, u.password) && Utf16Length(newPassword) >= MinPasswordLength)
    ensures r.Err? ==> st.users == old(st.users)
    ensures r.Ok? ==> (r == Ok(true) &&
      var i := FindUserById(old(st.users), caller.id).value;
      st.users == old(st.users)[i := old(st.users)[i].(password := Hash(newPassword))])
  {
    var found := FindUserById(st.users, caller.id);
    if found.None? {
      return Err("No user found");
    }
    var i := found.value;
    var user := st.users[i];
    if !Matches(password, user.password) {
      return Err("Incorrect old password");
    }
    if Utf16Length(newPassword) < MinPasswordLength {
      return Err("New password must be at least 8 characters long.");
    }
    var hashedPassword := Hash(newPassword);
    st.users := st.users[i := user.(password := hashedPassword)];
    r := Ok(true);
  }

  /**
   * The row after `requestOtp` issues `otp` at `now`: `"Verify"` writes the
   * verification pair; every other type writes the reset pair.
   */
  function WithIssuedOtp(u: User, kind: string, otp: string, now: int): (v: User)
    ensures kind == "Verify" ==> v == u.(verificationOtp := Some(otp), verificationOtpExpiry := Some(now + OtpLifetime))
    ensures kind != "Verify" ==> v == u.(resetPassOtp := Some(otp), resetPassOtpExpiry := Some(now + OtpLifetime))
  {
    if kind == "Verify" then u.(verificationOtp := Some(otp), verificationOtpExpiry := Some(now + OtpLifetime))
    else u.(resetPassOtp := Some(otp), resetPassOtpExpiry := Some(now + OtpLifetime))
  }

  method RequestOtp(st: Store, email: string, kind: string, now: int, draw: int, mail: MailOutcome)
    returns (r: Result<bool>)
    requires st.Valid()
    requires Utils.OtpMin <= draw < Utils.OtpMaxExclusive
    modifies st`users
    ensures st.Valid()
    ensures FindUserByEmail(old(st.users), email).None? ==> r == Err("User does not exists")
    ensures FindUserByEmail(old(st.users), email).Some? && mail.MailFailed? ==> r == Err(mail.reason)
    ensures r.Ok? <==> FindUserByEmail(old(st.users), email).Some? && mail.Sent?
    ensures r.Err? ==> st.users == old(st.users)
    ensures r.Ok? ==> (r == Ok(true) &&
      var i := FindUserByEmail(old(st.users), email).value;
      st.users == old(st.users)[i := WithIssuedOtp(old(st.users)[i], kind, Utils.GenerateOtp(draw), now)])
  {
    var found := FindUserByEmail(st.users, email);
    if found.None? {
      return Err("User does not exists");
    }
    var otp := Utils.GenerateOtp(draw);
    if mail.MailFailed? {
      return Err(mail.reason);
    }
    var i := found.value;
    var user := st.users[i];
    if kind == "Verify" {
      st.users := st.users[i := user.(verificationOtp := Some(otp), verificationOtpExpiry := Some(now + OtpLifetime))];
    } else {
      st.users := st.users[i := user.(resetPassOtp := Some(otp), resetPassOtpExpiry := Some(now + OtpLifetime))];
    }
    r := Ok(true);
  }

  // ---------------------------------------------------------------------------
  // getCurrentUser, signIn, refreshToken
  // ---------------------------------------------------------------------------

  /** `getCurrentUser`: the caller's own row, or `null`. */
  function GetCurrentUser(users: seq<User>, caller: Claims): (r: Option<User>)
    ensures r.Some? <==> exists j :: 0 <= j < |users| && users[j].id == caller.id
    ensures r.Some? ==> r.value in users && r.value.id == caller.id
  {
    match FindUserById(users, caller.id)
    case None => None
    case Some(i) => Some(users[i])
  }

  /** The `{ id, role }` payload both tokens carry. */
  function ClaimsOf(u: User): Payload {
    ClaimsPayload(Claims(u.id, u.role))
  }

  function SignIn(users: seq<User>, email: string, password: string, now: int): (r: Result<SignInResponse>)
    ensures FindUserByEmail(users, email).None? ==> r == Err("User not found")
    ensures FindUserByEmail(users, email).Some? ==>
      var u := users[FindUserByEmail(users, email).value];
      && (!Matches(password, u.password) ==> r == Err("Incorrect password"))
      && (Matches(password, u.password) && !u.verification ==> r == Err("Verify your account"))
      && (r.Ok? <==> Matches(password, u.password) && u.verification)
    ensures r.Ok? ==>
      && r.value.user in users && r.value.user.email == email
      && Matches(password, r.value.user.password) && r.value.user.verification
    ensures r.Ok? ==>
      && r.value.accessToken == Signed(ClaimsOf(r.value.user), JwtSecret, now + 900000)
      && r.value.refreshToken == Signed(ClaimsOf(r.value.user), JwtRefreshSecret, now + 604800000)
  {
    match FindUserByEmail(users, email)
    case None => Err("User not found")
    case Some(i) =>
      var user := users[i];
      if !Matches(password, user.password) then Err("Incorrect password")
      else if !user.verification then Err("Verify your account")
      else
        var accessToken := Sign(ClaimsOf(user), JwtSecret, now, AccessTokenLifetime);
        var refreshToken := Sign(ClaimsOf(user), JwtRefreshSecret, now, RefreshTokenLifetime);
        Ok(SignInResponse(user, accessToken, refreshToken))
  }

  /** Every failure, whatever its cause, is reported with the same message. */
  const RefreshFailed := "Refresh token is invalid or expired"

  function RefreshToken(users: seq<User>, token: Token, now: int): (r: Result<Token>)
    ensures r.Err? ==> r.message == RefreshFailed
    ensures r.Ok? <==>
      && Verify(token, JwtRefreshSecret, now).Ok?
      && Verify(token, JwtRefreshSecret, now).value.ClaimsPayload?
      && FindUserById(users, Verify(token, JwtRefreshSecret, now).value.claims.id).Some?
    ensures r.Ok? ==>
      var u := users[FindUserById(users, token.payload.claims.id).value];
      r.value == Signed(ClaimsOf(u), JwtSecret, now + 900000)
  {
    match Verify(token, JwtRefreshSecret, now)
    case Err(_) => Err(RefreshFailed)
    case Ok(TextPayload(_)) => Err(RefreshFailed)
    case Ok(ClaimsPayload(claims)) =>
      match FindUserById(users, claims.id)
      case None => Err(RefreshFailed)
      case Some(i) => Ok(Sign(ClaimsOf(users[i]), JwtSecret, now, AccessTokenLifetime))
  }

  /**
   * The access token from `signIn` passes `isAuth` with the user's claims for
   * fifteen minutes; the refresh token never does.
   */
  lemma SignInTokensAuthorize(users: seq<User>, email: string, password: string, now: int, later: int)
    requires SignIn(users, email, password, now).Ok?
    ensures var resp := SignIn(users, email, password, now).value;
      && (Middleware.IsAuth(Some(resp.accessToken), later) == Ok(ClaimsOf(resp.user)) <==> later < now + 900000)
      && Middleware.IsAuth(Some(resp.refreshToken), later) == Err("Authorization failed")
  {
  }

  /**
   * While the user row is unchanged, the refresh token from `signIn` buys a
   * new fifteen-minute access token with the same claims for seven days.
   */
  lemma {:induction false} RefreshAfterSignIn(users: seq<User>, email: string, password: string, now: int, later: int)
    requires UsersKeyed(users)
    requires SignIn(users, email, password, now).Ok?
    requires later < now + RefreshTokenLifetime
    ensures var resp := SignIn(users, email, password, now).value;
      RefreshToken(users, resp.refreshToken, later) == Ok(Signed(ClaimsOf(resp.user), JwtSecret, later + 900000))
  {
    var i := FindUserByEmail(users, email).value;
    var found := FindUserById(users, users[i].id);
    assert found == Some(i);
  }

  // ---------------------------------------------------------------------------
  // Scenarios over the methods' contracts
  // ---------------------------------------------------------------------------

  /** A verification code is consumed by its first successful use: resubmitting it fails. */
  method VerifyAccountIsOneShot(st: Store, email: string, otp: string, now: int, later: int)
    returns (first: Result<bool>, second: Result<bool>)
    requires st.Valid()
    modifies st`users
    ensures first.Ok? ==> second == Err("Invalid or expired OTP")
  {
    first := VerifyAccount(st, email, otp, now);
    second := VerifyAccount(st, email, otp, later);
  }

  /**
   * A valid sign-up cannot sign in until the mailed code is submitted; after
   * that it receives a fifteen-minute access token and a seven-day refresh token.
   */
  method SignUpVerifySignIn(st: Store, input: SignUpInput, now: int, draw: int, freshId: string)
    returns (before: Result<SignInResponse>, verified: Result<bool>, after: Result<SignInResponse>)
    requires st.Valid()
    requires Utils.OtpMin <= draw < Utils.OtpMaxExclusive
    requires FindUserById(st.users, freshId).None? && freshId !in st.customers && freshId !in st.restaurants
    requires SignUpAccepted(st.users, input, now)
    modifies st`users, st`customers, st`restaurants
    ensures before == Err("Verify your account")
    ensures verified == Ok(true)
    ensures after.Ok? && after.value.user.id == freshId
    ensures after.value.accessToken == Sign(ClaimsOf(after.value.user), JwtSecret, now, AccessTokenLifetime)
    ensures after.value.refreshToken == Sign(ClaimsOf(after.value.user), JwtRefreshSecret, now, RefreshTokenLifetime)
  {
    ghost var n := |st.users|;
    var created := SignUp(st, input, now, draw, freshId, Sent);
    assert st.users[n].email == input.email;
    assert FindUserByEmail(st.users, input.email) == Some(n);
    before := SignIn(st.users, input.email, input.password, now);
    verified := VerifyAccount(st, input.email, Utils.GenerateOtp(draw), now);
    assert st.users[n].email == input.email;
    assert FindUserByEmail(st.users, input.email) == Some(n);
    after := SignIn(st.users, input.email, input.password, now);
  }
}
