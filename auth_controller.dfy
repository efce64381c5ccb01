/** The credential handlers (backend/src/controllers/authController.ts):
    registration, e-mail login, member-number login, first-time password
    setup, and the forgotten-password flow over the OTP store; plus the
    default membership the onboarding step creates after registration
    (backend/src/services/onboardingService.ts). Password hashing is the
    caller-supplied `hashed`; hash comparison is the parameter `compare`
    (plain password, stored hash); the e-mail format check is `isEmail`.
    Tokens are not modelled: a successful reply stands for "a token is
    issued". */
module AuthController {
  import opened Wrappers
  import opened Persistence
  import OtpService
  import Text

  /** The public part of a user row that the replies echo. */
  datatype Profile = Profile(id: string, name: string, email: string, phone: string, role: string)

  function ProfileOf(u: User): (p: Profile)
    ensures p.id == u.id && p.name == u.name && p.email == u.email && p.phone == u.phone && p.role == u.role
  {
    Profile(u.id, u.name, u.email, u.phone, u.role)
  }

  // Registration and e-mail login

  /** The registration schema: a name of at least 2 characters, a
      well-formed e-mail, a phone of at least 10 characters and a password of
      at least 6. */
  predicate RegisterValid(name: Option<string>, email: Option<string>, phone: Option<string>,
                          password: Option<string>, isEmail: string -> bool)
  {
    && name.Some? && |name.value| >= 2
    && email.Some? && isEmail(email.value)
    && phone.Some? && |phone.value| >= 10
    && password.Some? && |password.value| >= 6
  }

  /** `register`: a new USER row under the fresh id `rowId`, holding the hash
      of the password and no password-set flag; an e-mail already registered
      gets 409 and nothing is created. */
  method Register(db: Database, name: Option<string>, email: Option<string>, phone: Option<string>,
                  password: Option<string>, hashed: string, isEmail: string -> bool, rowId: string)
    returns (r: Response<Profile>)
    requires db.Valid() && rowId !in db.users
    modifies db
    ensures db.Valid()
    ensures db.memberships == old(db.memberships) && db.plans == old(db.plans)
    ensures db.counters == old(db.counters) && db.payments == old(db.payments)
    ensures !RegisterValid(name, email, phone, password, isEmail) ==>
      r == Failure(400, "Validation failed") && db.users == old(db.users)
    ensures RegisterValid(name, email, phone, password, isEmail) && UserWithEmail(old(db.users), email.value).Some? ==>
      r == Failure(409, "Email already registered") && db.users == old(db.users)
    ensures RegisterValid(name, email, phone, password, isEmail) && UserWithEmail(old(db.users), email.value).None? ==>
      var u := User(rowId, name.value, email.value, phone.value, Some(hashed), false, "USER");
      r == Success(201, ProfileOf(u)) && db.users == old(db.users)[rowId := u]
  {
    if !RegisterValid(name, email, phone, password, isEmail) {
      return Failure(400, "Validation failed");
    }
    if UserWithEmail(db.users, email.value).Some? {
      return Failure(409, "Email already registered");
    }
    var u := User(rowId, name.value, email.value, phone.value, Some(hashed), false, "USER");
    AddUser(db.users, db.memberships, u);
    db.users := db.users[rowId := u];
    return Success(201, ProfileOf(u));
  }

  /** The membership the onboarding step gives a newly registered user: a 1Y
      record with six days and status 'inactive', dated once activated. */
  function OnboardingMembership(rowId: string, userId: string): (m: Membership)
    ensures m.id == rowId && m.userId == userId && m.planType == "1Y" && m.status == "inactive"
    ensures m.totalDays == 6 && m.usedDays == 0 && m.membershipId.None?
    ensures m.startDate.None? && m.endDate.None? && m.activatedAt.None?
    ensures m.status != PENDING && m.status != ACTIVE && m.status != EXPIRED
  {
    Membership(rowId, userId, "1Y", None, "inactive", UNPAID, 6, 0, None, [], None, None, None, None, None)
  }

  /** `triggerOnboarding` after `register`: creates the default membership;
      when the user already has one the create fails, the failure is
      swallowed, and nothing changes. */
  method TriggerOnboarding(db: Database, userId: string, rowId: string)
    requires db.Valid() && userId in db.users && FreshRowId(db.memberships, rowId)
    modifies db
    ensures db.Valid()
    ensures db.users == old(db.users) && db.plans == old(db.plans)
    ensures db.counters == old(db.counters) && db.payments == old(db.payments)
    ensures userId in old(db.memberships) ==> db.memberships == old(db.memberships)
    ensures userId !in old(db.memberships) ==>
      db.memberships == old(db.memberships)[userId := OnboardingMembership(rowId, userId)]
  {
    if userId in db.memberships {
      return;
    }
    var m := OnboardingMembership(rowId, userId);
    AddMembership(db.memberships, db.users, m);
    db.memberships := db.memberships[userId := m];
  }

  /** The login schema: a well-formed e-mail and a non-empty password. */
  predicate LoginValid(email: Option<string>, password: Option<string>, isEmail: string -> bool) {
    email.Some? && isEmail(email.value) && password.Some? && |password.value| >= 1
  }

  /** What a successful login reports. */
  datatype LoginView = LoginView(profile: Profile, hasMembership: bool)

  /** `login`. Only the right password for a registered e-mail succeeds; an
      unknown e-mail and a wrong password get the same 401, so the reply does
      not tell whether an account exists. A user enrolled through the join
      form has no password hash and the comparison fails with 500. */
  function Login(users: map<string, User>, memberships: map<string, Membership>,
                 email: Option<string>, password: Option<string>,
                 isEmail: string -> bool, compare: (string, string) -> bool): (r: Response<LoginView>)
    requires UsersWellFormed(users)
    ensures !LoginValid(email, password, isEmail) ==> r == Failure(400, "Validation failed")
    ensures r.Success? <==>
      && LoginValid(email, password, isEmail)
      && (exists u :: u in users && users[u].email == email.value && users[u].password.Some?
                      && compare(password.value, users[u].password.value))
    ensures r.Success? ==>
      var u := UserWithEmail(users, email.value).value;
      r == Success(200, LoginView(ProfileOf(users[u]), u in memberships))
    ensures LoginValid(email, password, isEmail) && UserWithEmail(users, email.value).None? ==>
      r == Failure(401, "Invalid email or password")
    ensures LoginValid(email, password, isEmail) && UserWithEmail(users, email.value).Some? ==>
      var u := users[UserWithEmail(users, email.value).value];
      && (u.password.None? ==> r == Failure(500, "Login failed"))
      && (u.password.Some? && !compare(password.value, u.password.value) ==>
            r == Failure(401, "Invalid email or password"))
  {
    if !LoginValid(email, password, isEmail) then Failure(400, "Validation failed")
    else
      var k := UserWithEmail(users, email.value);
      if k.None? then Failure(401, "Invalid email or password")
      else
        var u := users[k.value];
        if u.password.None? then Failure(500, "Login failed")
        else if !compare(password.value, u.password.value) then Failure(401, "Invalid email or password")
        else Success(200, LoginView(ProfileOf(u), k.value in memberships))
  }

  /** A failed login for an unknown e-mail and one for a known e-mail with a
      wrong password cannot be told apart. */
  lemma LoginDoesNotRevealAccounts(users: map<string, User>, memberships: map<string, Membership>,
                                   unknown: string, known: string, password: string,
                                   isEmail: string -> bool, compare: (string, string) -> bool)
    requires UsersWellFormed(users)
    requires isEmail(unknown) && isEmail(known) && |password| >= 1
    requires forall u :: u in users ==> users[u].email != unknown
    requires exists u :: u in users && users[u].email == known && users[u].password.Some?
                         && !compare(password, users[u].password.value)
    ensures Login(users, memberships, Some(unknown), Some(password), isEmail, compare)
         == Login(users, memberships, Some(known), Some(password), isEmail, compare)
         == Failure(401, "Invalid email or password")
  {
  }

  // Member-number login and first-time password setup

  /** What a member session reports: the profile and the membership. */
  datatype MemberSession = MemberSession(profile: Profile, membershipId: string, membershipStatus: string)

  /** The outcomes of `memberLogin`. */
  datatype MemberLoginReply =
    | Refused(status: nat, error: string)
    | NotActive(membershipStatus: string)
    | NeedsPasswordSetup(email: string, membershipId: string)
    | SignedIn(session: MemberSession)

  /** `memberLogin`. A session is opened only for an ACTIVE membership whose
      owner has set a password and supplied it; an ACTIVE member without a
      password is sent to password setup; a membership in any other status is
      refused with that status. The stored status is read as it is: a
      membership past its end date that nobody has read since still signs in. */
  function MemberLogin(users: map<string, User>, memberships: map<string, Membership>,
                       membershipId: Option<string>, password: Option<string>,
                       compare: (string, string) -> bool): (r: MemberLoginReply)
    requires MembershipsWellFormed(memberships, users)
    ensures !Present(membershipId) ==> r == Refused(400, "Membership ID is required")
    ensures Present(membershipId) && OwnerOfNumber(memberships, membershipId.value).None? ==>
      r == Refused(401, "Invalid Membership ID")
    ensures Present(membershipId) && OwnerOfNumber(memberships, membershipId.value).Some? ==>
      var k := OwnerOfNumber(memberships, membershipId.value).value;
      var m := memberships[k];
      var u := users[k];
      && (r.NotActive? <==> m.status != ACTIVE)
      && (r.NotActive? ==> r.membershipStatus == m.status)
      && (r.NeedsPasswordSetup? <==> m.status == ACTIVE && !u.passwordSet)
      && (r.NeedsPasswordSetup? ==> r == NeedsPasswordSetup(u.email, membershipId.value))
      && (r.SignedIn? <==> m.status == ACTIVE && u.passwordSet && Present(password) && Present(u.password)
                           && compare(password.value, u.password.value))
      && (r.SignedIn? ==> r.session == MemberSession(ProfileOf(u), membershipId.value, ACTIVE))
      && (m.status == ACTIVE && u.passwordSet && !Present(password) ==> r == Refused(400, "Password is required"))
      && (m.status == ACTIVE && u.passwordSet && Present(password) && !Present(u.password) ==>
            r == Refused(500, "Account password error. Please contact support."))
      && ((m.status == ACTIVE && u.passwordSet && Present(password) && Present(u.password)
           && !compare(password.value, u.password.value)) ==> r == Refused(401, "Invalid password"))
  {
    if !Present(membershipId) then Refused(400, "Membership ID is required")
    else
      var k := OwnerOfNumber(memberships, membershipId.value);
      if k.None? then Refused(401, "Invalid Membership ID")
      else
        var m := memberships[k.value];
        var u := users[k.value];
        if m.status != ACTIVE then NotActive(m.status)
        else if !u.passwordSet then NeedsPasswordSetup(u.email, membershipId.value)
        else if !Present(password) then Refused(400, "Password is required")
        else if !Present(u.password) then Refused(500, "Account password error. Please contact support.")
        else if !compare(password.value, u.password.value) then Refused(401, "Invalid password")
        else SignedIn(MemberSession(ProfileOf(u), membershipId.value, m.status))
  }

  /** `setMemberPassword`. The first password of an enrolled member: all four
      fields given, the two passwords equal and at least 6 characters, the
      member number known, the e-mail that of its owner ignoring case, and no
      password set yet. Only the owner's password and password-set flag
      change. The membership status is not checked. */
  method SetMemberPassword(db: Database, membershipId: Option<string>, email: Option<string>,
                           password: Option<string>, confirmPassword: Option<string>, hashed: string)
    returns (r: Response<MemberSession>)
    requires db.Valid()
    modifies db
    ensures db.Valid()
    ensures db.memberships == old(db.memberships) && db.plans == old(db.plans)
    ensures db.counters == old(db.counters) && db.payments == old(db.payments)
    ensures r.Failure? ==> db.users == old(db.users)
    ensures !(Present(membershipId) && Present(email) && Present(password) && Present(confirmPassword)) ==>
      r == Failure(400, "All fields are required")
    ensures Present(membershipId) && Present(email) && Present(password) && Present(confirmPassword) ==>
      if password.value != confirmPassword.value then r == Failure(400, "Passwords do not match")
      else if |password.value| < 6 then r == Failure(400, "Password must be at least 6 characters")
      else if OwnerOfNumber(old(db.memberships), membershipId.value).None? then
        r == Failure(404, "Membership not found")
      else
        var k := OwnerOfNumber(old(db.memberships), membershipId.value).value;
        var u := old(db.users)[k];
        if Text.ToLower(u.email) != Text.ToLower(email.value) then
          r == Failure(400, "Email does not match membership records")
        else if u.passwordSet then
          r == Failure(400, "Password already set. Please login or use forgot password.")
        else
          && db.users == old(db.users)[k := u.(password := Some(hashed), passwordSet := true)]
          && r == Success(200, MemberSession(ProfileOf(u), membershipId.value, old(db.memberships)[k].status))
  {
    if !(Present(membershipId) && Present(email) && Present(password) && Present(confirmPassword)) {
      return Failure(400, "All fields are required");
    }
    if password.value != confirmPassword.value {
      return Failure(400, "Passwords do not match");
    }
    if |password.value| < 6 {
      return Failure(400, "Password must be at least 6 characters");
    }
    var owner := OwnerOfNumber(db.memberships, membershipId.value);
    if owner.None? {
      return Failure(404, "Membership not found");
    }
    var k := owner.value;
    var u := db.users[k];
    if Text.ToLower(u.email) != Text.ToLower(email.value) {
      return Failure(400, "Email does not match membership records");
    }
    if u.passwordSet {
      return Failure(400, "Password already set. Please login or use forgot password.");
    }
    var updated := u.(password := Some(hashed), passwordSet := true);
    ReplaceUser(db.users, db.memberships, k, updated);
    db.users := db.users[k := updated];
    return Success(200, MemberSession(ProfileOf(u), membershipId.value, db.memberships[k].status));
  }

  /** Once an ACTIVE member has set a password, signing in with that password
      opens a session, and a second setup attempt is refused. */
  lemma {:induction false} SetupThenSignIn(users: map<string, User>, memberships: map<string, Membership>,
                                           number: string, password: string, hashed: string,
                                           compare: (string, string) -> bool)
    requires MembershipsWellFormed(memberships, users)
    requires number != "" && password != "" && hashed != "" && compare(password, hashed)
    requires OwnerOfNumber(memberships, number).Some?
    requires memberships[OwnerOfNumber(memberships, number).value].status == ACTIVE
    ensures var k := OwnerOfNumber(memberships, number).value;
      var users' := users[k := users[k].(password := Some(hashed), passwordSet := true)];
      && MembershipsWellFormed(memberships, users')
      && MemberLogin(users', memberships, Some(number), Some(password), compare).SignedIn?
      && users'[k].passwordSet
  {
    var k := OwnerOfNumber(memberships, number).value;
    var users' := users[k := users[k].(password := Some(hashed), passwordSet := true)];
    assert users'.Keys == users.Keys;
    assert MembershipsWellFormed(memberships, users');
    assert OwnerOfNumber(memberships, number) == Some(k);
  }

  // Forgotten password

  /** The purpose under which the reset code is stored. */
  const FORGOT_PASSWORD: string := "forgot_password"

  /** The replies of `forgotPassword`: the notice and, when a code was sent,
      the user it was sent for. */
  datatype OtpNotice = OtpNotice(message: string, userId: Option<string>)

  /** `forgotPassword`. A registered e-mail gets a fresh six-digit code
      stored under (user, forgot_password), replacing any earlier one; an
      unknown e-mail gets a generic reply and nothing is stored. The database
      is only read. The random draw behind the code is `draw`. */
  method ForgotPassword(db: Database, otps: OtpService.OtpStore, email: Option<string>, draw: real, now: int)
    returns (r: Response<OtpNotice>)
    requires db.Valid() && 0.0 <= draw < 1.0
    modifies otps
    ensures !Present(email) ==> r == Failure(400, "Email is required") && otps.entries == old(otps.entries)
    ensures Present(email) && UserWithEmail(db.users, email.value).None? ==>
      && r == Success(200, OtpNotice("If the email exists, an OTP will be sent", None))
      && otps.entries == old(otps.entries)
    ensures Present(email) && UserWithEmail(db.users, email.value).Some? ==>
      var u := UserWithEmail(db.users, email.value).value;
      && r == Success(200, OtpNotice("OTP sent to your email", Some(u)))
      && otps.entries == OtpService.AfterStore(old(otps.entries), u, FORGOT_PASSWORD, email.value,
                                               OtpService.GenerateOtp(draw), now)
  {
    if !Present(email) {
      return Failure(400, "Email is required");
    }
    var user := UserWithEmail(db.users, email.value);
    if user.None? {
      return Success(200, OtpNotice("If the email exists, an OTP will be sent", None));
    }
    var otp := OtpService.GenerateOtp(draw);
    otps.StoreOtp(user.value, FORGOT_PASSWORD, email.value, otp, now);
    return Success(200, OtpNotice("OTP sent to your email", user));
  }

  /** `resetPassword`. The password of the user with that e-mail becomes
      `hashed` (the hash of the new password) only when the new password has
      at least 6 characters and the forgot_password code verifies; the code
      is consumed or expired as `verifyOtp` says; the password-set flag and
      every other field stay as they were. */
  method ResetPassword(db: Database, otps: OtpService.OtpStore, email: Option<string>, otp: Option<string>,
                       newPassword: Option<string>, hashed: string, now: int)
    returns (r: Response<string>)
    requires db.Valid()
    modifies db, otps
    ensures db.Valid()
    ensures db.memberships == old(db.memberships) && db.plans == old(db.plans)
    ensures db.counters == old(db.counters) && db.payments == old(db.payments)
    ensures r.Failure? ==> db.users == old(db.users)
    ensures !(Present(email) && Present(otp) && Present(newPassword)) ==>
      r == Failure(400, "Email, OTP, and new password are required") && otps.entries == old(otps.entries)
    ensures Present(email) && Present(otp) && Present(newPassword) && |newPassword.value| < 6 ==>
      r == Failure(400, "Password must be at least 6 characters") && otps.entries == old(otps.entries)
    ensures Present(email) && Present(otp) && Present(newPassword) && |newPassword.value| >= 6 ==>
      if UserWithEmail(old(db.users), email.value).None? then
        r == Failure(400, "Invalid request") && otps.entries == old(otps.entries)
      else
        var k := UserWithEmail(old(db.users), email.value).value;
        var step := OtpService.VerifyTransition(old(otps.entries), k, FORGOT_PASSWORD, otp.value, now);
        && otps.entries == step.entries
        && (!step.result.valid ==> r == Failure(400, "Invalid or expired OTP"))
        && (step.result.valid ==>
              && r == Success(200, "Password reset successfully")
              && db.users == old(db.users)[k := old(db.users)[k].(password := Some(hashed))])
  {
    if !(Present(email) && Present(otp) && Present(newPassword)) {
      return Failure(400, "Email, OTP, and new password are required");
    }
    if |newPassword.value| < 6 {
      return Failure(400, "Password must be at least 6 characters");
    }
    var user := UserWithEmail(db.users, email.value);
    if user.None? {
      return Failure(400, "Invalid request");
    }
    var k := user.value;
    var result := otps.VerifyOtp(k, FORGOT_PASSWORD, otp.value, now);
    if !result.valid {
      return Failure(400, "Invalid or expired OTP");
    }
    var updated := db.users[k].(password := Some(hashed));
    ReplaceUser(db.users, db.memberships, k, updated);
    db.users := db.users[k := updated];
    return Success(200, "Password reset successfully");
  }
}
