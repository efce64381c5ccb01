/** The OTP-gated profile handlers (backend/src/controllers/userController.ts):
    a change of name, phone or password is requested first, which stores
    the new value under (user, field) with a six-digit code, and applied
    only when that code is verified. The caller is the authenticated user
    `userId`; the random draw behind a code is `draw`; a new password
    arrives already hashed as `hashed`. */
module UserController {
  import opened Wrappers
  import opened Persistence
  import OtpService
  import Text

  /** The fields a profile-change request may name. */
  const PROFILE_FIELDS: set<string> := {"name", "phone"}

  /** The purpose under which a pending password hash is stored. */
  const PASSWORD: string := "password"

  /** The user row with `field` set to `value`: 'name' and 'phone' set that
      column, 'password' sets the password hash; any other field names no
      column the update can write, and the update fails. */
  function AppliedChange(u: User, field: string, value: string): (r: Option<User>)
    ensures r.Some? <==> field in {"name", "phone", "password"}
    ensures field == "name" ==> r == Some(u.(name := value))
    ensures field == "phone" ==> r == Some(u.(phone := value))
    ensures field == "password" ==> r == Some(u.(password := Some(value)))
    ensures r.Some? ==> r.value.id == u.id && r.value.email == u.email
  {
    if field == "name" then Some(u.(name := value))
    else if field == "phone" then Some(u.(phone := value))
    else if field == "password" then Some(u.(password := Some(value)))
    else None
  }

  function ToUpperChar(c: char): (d: char)
    ensures 'a' <= c <= 'z' ==> 'A' <= d <= 'Z' && Text.ToLowerChar(d) == c
    ensures !('a' <= c <= 'z') ==> d == c
  {
    if 'a' <= c <= 'z' then (c as int - 32) as char else c
  }

  /** The field name with its first letter upper-cased, for the reply. */
  function Capitalised(s: string): (r: string)
    ensures |r| == |s|
    ensures s != [] ==> r[0] == ToUpperChar(s[0]) && r[1..] == s[1..]
  {
    if s == [] then s else [ToUpperChar(s[0])] + s[1..]
  }

  /** `requestProfileChange`: only 'name' and 'phone' may be requested, the
      new value must not be blank, and the caller must exist; the trimmed
      value is then stored with a fresh code, replacing any pending change of
      the same field. The reply names the field. */
  method RequestProfileChange(db: Database, otps: OtpService.OtpStore, userId: string,
                              field: Option<string>, newValue: Option<string>, draw: real, now: int)
    returns (r: Response<string>)
    requires 0.0 <= draw < 1.0
    modifies otps
    ensures r.Failure? ==> otps.entries == old(otps.entries)
    ensures !(field.Some? && field.value in PROFILE_FIELDS) ==>
      r == Failure(400, "Invalid field. Only name and phone require OTP.")
    ensures field.Some? && field.value in PROFILE_FIELDS ==>
      if !Present(newValue) || Text.Trim(newValue.value) == "" then r == Failure(400, "New value is required")
      else if userId !in db.users then r == Failure(404, "User not found")
      else
        && r == Success(200, field.value)
        && otps.entries == OtpService.AfterStore(old(otps.entries), userId, field.value,
                                                 Text.Trim(newValue.value), OtpService.GenerateOtp(draw), now)
  {
    if !(field.Some? && field.value in PROFILE_FIELDS) {
      return Failure(400, "Invalid field. Only name and phone require OTP.");
    }
    if !Present(newValue) || Text.Trim(newValue.value) == "" {
      return Failure(400, "New value is required");
    }
    if userId !in db.users {
      return Failure(404, "User not found");
    }
    var otp := OtpService.GenerateOtp(draw);
    otps.StoreOtp(userId, field.value, Text.Trim(newValue.value), otp, now);
    return Success(200, field.value);
  }

  /** The columns of the updated row the reply selects. */
  datatype Contact = Contact(id: string, name: string, email: string, phone: string)

  function ContactOf(u: User): (c: Contact)
    ensures c.id == u.id && c.name == u.name && c.email == u.email && c.phone == u.phone
  {
    Contact(u.id, u.name, u.email, u.phone)
  }

  /** What a verified profile change reports. */
  datatype ProfileUpdate = ProfileUpdate(message: string, user: Contact)

  /** `verifyProfileChange`. The code for (caller, field) is verified; when it
      holds, the value stored at request time (not the one sent now) is
      written. The field is not checked against the request list here: a
      verified code for a field that names no writable column, or for a
      caller whose row is gone, is consumed and the update fails with 500. */
  method VerifyProfileChange(db: Database, otps: OtpService.OtpStore, userId: string,
                             field: Option<string>, newValue: Option<string>, otp: Option<string>, now: int)
    returns (r: Response<ProfileUpdate>)
    requires db.Valid()
    modifies db, otps
    ensures db.Valid()
    ensures db.memberships == old(db.memberships) && db.plans == old(db.plans)
    ensures db.counters == old(db.counters) && db.payments == old(db.payments)
    ensures r.Failure? ==> db.users == old(db.users)
    ensures !(Present(field) && Present(newValue) && Present(otp)) ==>
      r == Failure(400, "Field, new value, and OTP are required") && otps.entries == old(otps.entries)
    ensures Present(field) && Present(newValue) && Present(otp) ==>
      var step := OtpService.VerifyTransition(old(otps.entries), userId, field.value, otp.value, now);
      && otps.entries == step.entries
      && (!step.result.valid ==> r == Failure(400, "Invalid or expired OTP"))
      && (step.result.valid && (userId !in old(db.users) ||
            AppliedChange(old(db.users)[userId], field.value, step.result.newValue.value).None?) ==>
            r == Failure(500, "Failed to verify and update"))
      && (step.result.valid && userId in old(db.users) &&
            AppliedChange(old(db.users)[userId], field.value, step.result.newValue.value).Some? ==>
            var u := AppliedChange(old(db.users)[userId], field.value, step.result.newValue.value).value;
            && db.users == old(db.users)[userId := u]
            && r == Success(200, ProfileUpdate(Capitalised(field.value) + " updated successfully",
                                               ContactOf(u))))
  {
    if !(Present(field) && Present(newValue) && Present(otp)) {
      return Failure(400, "Field, new value, and OTP are required");
    }
    var result := otps.VerifyOtp(userId, field.value, otp.value, now);
    if !result.valid {
      return Failure(400, "Invalid or expired OTP");
    }
    if userId !in db.users {
      return Failure(500, "Failed to verify and update");
    }
    var changed := AppliedChange(db.users[userId], field.value, result.newValue.value);
    if changed.None? {
      return Failure(500, "Failed to verify and update");
    }
    ReplaceUser(db.users, db.memberships, userId, changed.value);
    db.users := db.users[userId := changed.value];
    return Success(200, ProfileUpdate(Capitalised(field.value) + " updated successfully",
                                      ContactOf(changed.value)));
  }

  /** A name or phone change requested with `requested` and verified in time
      with the same code writes the trimmed requested value, whatever value
      accompanies the verification; a second verification of that code fails. */
  lemma {:induction false} RequestedValueIsApplied(entries: map<string, OtpService.OtpData>, u: User,
                                                   field: string, requested: string, code: string,
                                                   t0: int, t1: int)
    requires field in PROFILE_FIELDS && t1 <= t0 + OtpService.OTP_TTL_MS
    ensures var stored := OtpService.AfterStore(entries, u.id, field, Text.Trim(requested), code, t0);
      var step := OtpService.VerifyTransition(stored, u.id, field, code, t1);
      && step.result.valid
      && AppliedChange(u, field, step.result.newValue.value)
         == Some(if field == "name" then u.(name := Text.Trim(requested)) else u.(phone := Text.Trim(requested)))
      && !OtpService.VerifyTransition(step.entries, u.id, field, code, t1).result.valid
  {
    var stored := OtpService.AfterStore(entries, u.id, field, Text.Trim(requested), code, t0);
    OtpService.StoreThenVerify(entries, u.id, field, Text.Trim(requested), code, t0, t1);
    OtpService.VerifyIsSingleUse(stored, u.id, field, code, t1, t1);
  }

  /** `requestPasswordChange`: a new password of at least 6 characters, for
      a caller who exists, is stored hashed under (caller, password) with a
      fresh code. */
  method RequestPasswordChange(db: Database, otps: OtpService.OtpStore, userId: string,
                               newPassword: Option<string>, hashed: string, draw: real, now: int)
    returns (r: Response<string>)
    requires 0.0 <= draw < 1.0
    modifies otps
    ensures r.Failure? ==> otps.entries == old(otps.entries)
    ensures !Present(newPassword) || |newPassword.value| < 6 ==>
      r == Failure(400, "New password must be at least 6 characters")
    ensures Present(newPassword) && |newPassword.value| >= 6 && userId !in db.users ==>
      r == Failure(404, "User not found")
    ensures Present(newPassword) && |newPassword.value| >= 6 && userId in db.users ==>
      && r == Success(200, "OTP sent to your registered email")
      && otps.entries == OtpService.AfterStore(old(otps.entries), userId, PASSWORD, hashed,
                                               OtpService.GenerateOtp(draw), now)
  {
    if !Present(newPassword) || |newPassword.value| < 6 {
      return Failure(400, "New password must be at least 6 characters");
    }
    if userId !in db.users {
      return Failure(404, "User not found");
    }
    var otp := OtpService.GenerateOtp(draw);
    otps.StoreOtp(userId, PASSWORD, hashed, otp, now);
    return Success(200, "OTP sent to your registered email");
  }

  /** `verifyPasswordChange`: when the (caller, password) code verifies, the
      stored hash becomes the caller's password; nothing else changes. */
  method VerifyPasswordChange(db: Database, otps: OtpService.OtpStore, userId: string,
                              otp: Option<string>, now: int)
    returns (r: Response<string>)
    requires db.Valid()
    modifies db, otps
    ensures db.Valid()
    ensures db.memberships == old(db.memberships) && db.plans == old(db.plans)
    ensures db.counters == old(db.counters) && db.payments == old(db.payments)
    ensures r.Failure? ==> db.users == old(db.users)
    ensures !Present(otp) ==> r == Failure(400, "OTP is required") && otps.entries == old(otps.entries)
    ensures Present(otp) ==>
      var step := OtpService.VerifyTransition(old(otps.entries), userId, PASSWORD, otp.value, now);
      && otps.entries == step.entries
      && (!step.result.valid ==> r == Failure(400, "Invalid or expired OTP"))
      && (step.result.valid && userId !in old(db.users) ==> r == Failure(500, "Failed to change password"))
      && (step.result.valid && userId in old(db.users) ==>
            && r == Success(200, "Password changed successfully")
            && db.users == old(db.users)[userId := old(db.users)[userId].(password := step.result.newValue)])
  {
    if !Present(otp) {
      return Failure(400, "OTP is required");
    }
    var result := otps.VerifyOtp(userId, PASSWORD, otp.value, now);
    if !result.valid {
      return Failure(400, "Invalid or expired OTP");
    }
    if userId !in db.users {
      return Failure(500, "Failed to change password");
    }
    var updated := db.users[userId].(password := result.newValue);
    ReplaceUser(db.users, db.memberships, userId, updated);
    db.users := db.users[userId := updated];
    return Success(200, "Password changed successfully");
  }
}
