/** The in-memory one-time-code store (backend/src/services/otpService.ts):
    entries keyed by "<userId>:<field>", each holding the code, the value to
    apply once the code is confirmed, and an expiry instant. Time is passed in
    as `now`, in milliseconds. */
module OtpService {
  import opened Wrappers
  import Decimal

  /** Codes live for five minutes. */
  const OTP_TTL_MS: int := 5 * 60 * 1000

  datatype OtpData = OtpData(otp: string, field: string, newValue: string, expiresAt: int)

  /** What `verifyOtp` returns: `{ valid, newValue? }`. */
  datatype Verification = Verification(valid: bool, newValue: Option<string>)

  /** A verification's reply together with the store it leaves behind. */
  datatype VerifyStep = VerifyStep(result: Verification, entries: map<string, OtpData>)

  /** The six-digit code drawn from `Math.random()` (`draw`, in [0, 1)):
      `Math.floor(100000 + draw * 900000)`. */
  function OtpNumber(draw: real): (n: int)
    requires 0.0 <= draw < 1.0
    ensures 100000 <= n <= 999999
  {
    assert 0.0 <= draw * 900000.0 < 900000.0;
    (100000.0 + draw * 900000.0).Floor
  }

  /** `generateOtp()`: the decimal text of the drawn number, always six digits
      and never starting with zero, so no padding is involved. */
  function GenerateOtp(draw: real): (code: string)
    requires 0.0 <= draw < 1.0
    ensures |code| == 6 && Decimal.AllDigits(code) && code[0] != '0'
    ensures 100000 <= Decimal.ParseDigits(code) <= 999999
  {
    var n := OtpNumber(draw);
    Decimal.Pow10Values();
    Decimal.NatToStringLength(n, 6);
    Decimal.ParseNatToString(n);
    Decimal.NatToString(n)
  }

  /** The map key `${userId}:${field}`. */
  function StoreKey(userId: string, field: string): string {
    userId + ":" + field
  }

  /** Keys of different (user, purpose) pairs never clash, provided user ids
      contain no colon (the database's generated ids do not). */
  lemma StoreKeyInjective(u1: string, f1: string, u2: string, f2: string)
    requires ':' !in u1 && ':' !in u2
    requires StoreKey(u1, f1) == StoreKey(u2, f2)
    ensures u1 == u2 && f1 == f2
  {
    var k := StoreKey(u1, f1);
    if |u1| < |u2| {
      KeyCharAt(u2, f2, |u1|);
      assert false;
    } else if |u2| < |u1| {
      KeyCharAt(u1, f1, |u2|);
      assert false;
    }
    assert u1 == k[..|u1|] == u2;
    assert f1 == k[|u1| + 1..] == f2;
  }

  lemma KeyCharAt(userId: string, field: string, i: nat)
    requires i < |userId|
    ensures StoreKey(userId, field)[i] == userId[i]
    ensures StoreKey(userId, field)[|userId|] == ':'
  {
  }

  /** `storeOtp`: the entry for (userId, field) is set, replacing whatever was
      there, to expire five minutes after `now`; no other entry changes. */
  function AfterStore(entries: map<string, OtpData>, userId: string, field: string,
                      newValue: string, otp: string, now: int): (m: map<string, OtpData>)
    ensures m.Keys == entries.Keys + {StoreKey(userId, field)}
    ensures m[StoreKey(userId, field)] == OtpData(otp, field, newValue, now + OTP_TTL_MS)
    ensures forall k :: k in entries && k != StoreKey(userId, field) ==> m[k] == entries[k]
  {
    entries[StoreKey(userId, field) := OtpData(otp, field, newValue, now + OTP_TTL_MS)]
  }

  /** `verifyOtp`. A missing entry: invalid, store unchanged. An entry past its
      expiry (`expiresAt < now`): removed, invalid, whatever the code. A wrong
      code: invalid, entry kept. The right code in time: entry removed and its
      pending value handed back. */
  function VerifyTransition(entries: map<string, OtpData>, userId: string, field: string,
                            otp: string, now: int): (s: VerifyStep)
    ensures var key := StoreKey(userId, field);
      && (s.result.valid <==> key in entries && entries[key].expiresAt >= now && entries[key].otp == otp)
      && (s.result.valid ==> s.result.newValue == Some(entries[key].newValue))
      && (!s.result.valid ==> s.result.newValue == None)
      && (key in entries && (s.result.valid || entries[key].expiresAt < now) ==> s.entries == entries - {key})
      && (!(key in entries && (s.result.valid || entries[key].expiresAt < now)) ==> s.entries == entries)
  {
    var key := StoreKey(userId, field);
    if key !in entries then VerifyStep(Verification(false, None), entries)
    else if entries[key].expiresAt < now then VerifyStep(Verification(false, None), entries - {key})
    else if entries[key].otp != otp then VerifyStep(Verification(false, None), entries)
    else VerifyStep(Verification(true, Some(entries[key].newValue)), entries - {key})
  }

  /** The periodic sweep: exactly the entries with `expiresAt < now` go. */
  function Swept(entries: map<string, OtpData>, now: int): (m: map<string, OtpData>)
    ensures forall k :: k in m <==> k in entries && !(entries[k].expiresAt < now)
    ensures forall k :: k in m ==> m[k] == entries[k]
  {
    map k | k in entries && !(entries[k].expiresAt < now) :: entries[k]
  }

  /** The module-level `otpStore` map. */
  class OtpStore {
    var entries: map<string, OtpData>

    constructor ()
      ensures entries == map[]
    {
      entries := map[];
    }

    method StoreOtp(userId: string, field: string, newValue: string, otp: string, now: int)
      modifies this
      ensures entries == AfterStore(old(entries), userId, field, newValue, otp, now)
    {
      var expiresAt := now + OTP_TTL_MS;
      entries := entries[StoreKey(userId, field) := OtpData(otp, field, newValue, expiresAt)];
    }

    method VerifyOtp(userId: string, field: string, otp: string, now: int) returns (r: Verification)
      modifies this
      ensures VerifyStep(r, entries) == VerifyTransition(old(entries), userId, field, otp, now)
    {
      var key := StoreKey(userId, field);
      if key !in entries {
        return Verification(false, None);
      }
      var data := entries[key];
      if data.expiresAt < now {
        entries := entries - {key};
        return Verification(false, None);
      }
      if data.otp != otp {
        return Verification(false, None);
      }
      entries := entries - {key};
      return Verification(true, Some(data.newValue));
    }

    /** The `setInterval` sweep, run at instant `now`. */
    method SweepExpired(now: int)
      modifies this
      ensures entries == Swept(old(entries), now)
    {
      var pending := entries.Keys;
      while pending != {}
        invariant pending <= old(entries).Keys
        invariant forall k :: k in entries <==>
          k in old(entries) && (k in pending || !(old(entries)[k].expiresAt < now))
        invariant forall k :: k in entries ==> entries[k] == old(entries)[k]
        decreases pending
      {
        var k :| k in pending;
        if entries[k].expiresAt < now {
          entries := entries - {k};
        }
        pending := pending - {k};
      }
    }
  }

  // Properties of the store across several calls.

  /** Storing and then verifying the same code no later than the expiry
      instant succeeds and hands back exactly the stored value; the entry is
      gone afterwards. The boundary `now == expiresAt` is still accepted. */
  lemma StoreThenVerify(entries: map<string, OtpData>, userId: string, field: string,
                        newValue: string, otp: string, t0: int, t1: int)
    requires t1 <= t0 + OTP_TTL_MS
    ensures var s := VerifyTransition(AfterStore(entries, userId, field, newValue, otp, t0), userId, field, otp, t1);
      s.result == Verification(true, Some(newValue)) && StoreKey(userId, field) !in s.entries
  {
  }

  /** Codes are single use: right after a successful verification, the same
      code (or any other) is refused. */
  lemma VerifyIsSingleUse(entries: map<string, OtpData>, userId: string, field: string,
                          otp: string, now: int, later: int)
    requires VerifyTransition(entries, userId, field, otp, now).result.valid
    ensures !VerifyTransition(VerifyTransition(entries, userId, field, otp, now).entries,
                              userId, field, otp, later).result.valid
  {
  }

  /** After the five minutes, even the right code is refused and the entry is
      dropped. */
  lemma ExpiredCodeRefused(entries: map<string, OtpData>, userId: string, field: string,
                           newValue: string, otp: string, t0: int, t1: int)
    requires t1 > t0 + OTP_TTL_MS
    ensures var s := VerifyTransition(AfterStore(entries, userId, field, newValue, otp, t0), userId, field, otp, t1);
      !s.result.valid && StoreKey(userId, field) !in s.entries
  {
  }

  /** A wrong guess keeps the entry, so the right code still succeeds later
      within the window. */
  lemma WrongCodeKeepsEntry(entries: map<string, OtpData>, userId: string, field: string,
                            wrong: string, now: int, later: int)
    requires StoreKey(userId, field) in entries
    requires entries[StoreKey(userId, field)].otp != wrong
    requires later <= entries[StoreKey(userId, field)].expiresAt
    ensures var s := VerifyTransition(entries, userId, field, wrong, now);
      !s.result.valid &&
      (entries[StoreKey(userId, field)].expiresAt >= now ==>
         VerifyTransition(s.entries, userId, field, entries[StoreKey(userId, field)].otp, later).result
           == Verification(true, Some(entries[StoreKey(userId, field)].newValue)))
  {
  }

  /** A new request for the same (user, purpose) invalidates the earlier code. */
  lemma ReissueInvalidatesEarlierCode(entries: map<string, OtpData>, userId: string, field: string,
                                      v1: string, otp1: string, v2: string, otp2: string,
                                      t1: int, t2: int, t3: int)
    requires otp1 != otp2
    ensures !VerifyTransition(AfterStore(AfterStore(entries, userId, field, v1, otp1, t1),
                                         userId, field, v2, otp2, t2),
                              userId, field, otp1, t3).result.valid
  {
  }

  /** Verifying one (user, purpose) never touches another's entry. */
  lemma VerifyIsolated(entries: map<string, OtpData>, userId: string, field: string,
                       otp: string, now: int, other: string)
    requires other != StoreKey(userId, field)
    ensures var s := VerifyTransition(entries, userId, field, otp, now);
      (other in s.entries <==> other in entries) &&
      (other in entries ==> s.entries[other] == entries[other])
  {
  }
}
