/** The member-facing membership handlers
    (backend/src/controllers/membershipController.ts): public enrolment,
    reading one's membership (with lazy expiry), choosing a plan, the public
    plan list, recording a manual payment, and cancelling a pending request.
    The caller of the authenticated handlers is identified by `userId`; the
    current instant is `now`, in milliseconds. */
module MembershipController {
  import opened Wrappers
  import opened Persistence
  import Text

  // Derived values of a membership record

  /** The status a read reports: an ACTIVE record whose end date has passed
      (`now > endDate`) reads as EXPIRED; every other record keeps its stored
      status. */
  function DerivedStatus(m: Membership, now: int): (s: string)
    ensures s != m.status <==> m.status == ACTIVE && m.endDate.Some? && now > m.endDate.value
    ensures s != m.status ==> s == EXPIRED
  {
    if m.endDate.Some? && now > m.endDate.value && m.status == ACTIVE then EXPIRED else m.status
  }

  /** `remainingDays`: the plan's days plus the operator's extra days (none
      counts as zero) minus the days used. It is not clamped, so it goes
      negative when more days were used than granted. */
  function RemainingDays(m: Membership): (d: int)
    ensures m.customDaysAdded.None? ==> d == m.totalDays - m.usedDays
    ensures m.customDaysAdded.Some? ==> d == m.totalDays + m.customDaysAdded.value - m.usedDays
    ensures d < 0 <==> m.usedDays > m.totalDays + m.customDaysAdded.GetOr(0)
  {
    (m.totalDays + m.customDaysAdded.GetOr(0)) - m.usedDays
  }

  /** Reading twice at the same instant gives the same status: writing the
      derived status back is a fixed point. */
  lemma LazyExpiryIdempotent(m: Membership, now: int)
    ensures DerivedStatus(m.(status := DerivedStatus(m, now)), now) == DerivedStatus(m, now)
  {
  }

  /** Once a read reports EXPIRED, every later read does too. */
  lemma ExpiryIsPermanent(m: Membership, t1: int, t2: int)
    requires t1 <= t2 && DerivedStatus(m, t1) == EXPIRED
    ensures DerivedStatus(m, t2) == EXPIRED
  {
  }

  /** The lazy expiry touches only the status, so the remaining days a read
      reports are the same before and after the write-back. */
  lemma ExpiryKeepsRemainingDays(m: Membership, now: int)
    ensures RemainingDays(m.(status := DerivedStatus(m, now))) == RemainingDays(m)
  {
  }

  // Records created or reset by the handlers

  /** The PENDING, UNPAID record that enrolment creates for plan `plan`. */
  function EnrolledMembership(id: string, userId: string, planType: string, state: Option<string>,
                              plan: PlanConfig): (m: Membership)
    ensures m.id == id && m.userId == userId && m.planType == planType && m.state == state
    ensures m.status == PENDING && m.paymentStatus == UNPAID
    ensures m.totalDays == plan.days && m.paymentAmount == Some(plan.price) && m.usedDays == 0
    ensures m.membershipId.None? && m.startDate.None? && m.endDate.None? && m.activatedAt.None?
    ensures RemainingDays(m) == plan.days
  {
    Membership(id, userId, planType, None, PENDING, UNPAID, plan.days, 0, None, [], None, None, None, state,
               Some(plan.price))
  }

  /** `choosePlan` on an existing record that is neither ACTIVE nor PENDING:
      the record becomes a PENDING, UNPAID request for the new plan with no
      dates and no used days; its member number, extra days, destinations
      and geography are kept. */
  function ResetToPending(m: Membership, planType: string, plan: PlanConfig): (r: Membership)
    ensures r.status == PENDING && r.paymentStatus == UNPAID && r.planType == planType
    ensures r.totalDays == plan.days && r.paymentAmount == Some(plan.price) && r.usedDays == 0
    ensures r.startDate.None? && r.endDate.None? && r.activatedAt.None?
    ensures r.id == m.id && r.userId == m.userId && r.membershipId == m.membershipId
    ensures r.customDaysAdded == m.customDaysAdded && r.customDestinationIds == m.customDestinationIds
    ensures r.state == m.state
    ensures RemainingDays(r) == plan.days + m.customDaysAdded.GetOr(0)
  {
    m.(planType := planType, totalDays := plan.days, status := PENDING, paymentStatus := UNPAID,
       paymentAmount := Some(plan.price), startDate := None, endDate := None, activatedAt := None,
       usedDays := 0)
  }

  /** Active plans only. */
  function ActivePlans(plans: map<string, PlanConfig>): (m: map<string, PlanConfig>)
    ensures forall k :: k in m <==> k in plans && plans[k].isActive
    ensures forall k :: k in m ==> m[k] == plans[k]
  {
    map k | k in plans && plans[k].isActive :: plans[k]
  }

  /** The three default plans `getPlans` writes, under the row ids given. */
  function DefaultPlans(id1: string, id2: string, id3: string): (m: map<string, PlanConfig>)
    requires id1 != id2 && id1 != id3 && id2 != id3
    ensures m.Keys == {id1, id2, id3}
    ensures PlansWellFormed(m)
    ensures forall k :: k in m ==> m[k].isActive && m[k].destinationIds == []
    ensures m[id1].planType == "1Y" && m[id1].days == 6 && m[id1].price == 9999
    ensures m[id2].planType == "3Y" && m[id2].days == 18 && m[id2].price == 24999
    ensures m[id3].planType == "5Y" && m[id3].days == 30 && m[id3].price == 39999
  {
    map[id1 := PlanConfig(id1, "1Y", "1-Year Membership", None, 6, 9999, true, []),
        id2 := PlanConfig(id2, "3Y", "3-Year Membership", None, 18, 24999, true, []),
        id3 := PlanConfig(id3, "5Y", "5-Year Membership", None, 30, 39999, true, [])]
  }

  /** `findFirst({ planType, isActive: true })`. */
  function ActivePlanOfType(plans: map<string, PlanConfig>, planType: string): (p: Option<PlanConfig>)
    requires PlansWellFormed(plans)
    ensures p.Some? ==> p.value in plans.Values && p.value.planType == planType && p.value.isActive
    ensures p.None? ==> forall k :: k in plans ==> !(plans[k].planType == planType && plans[k].isActive)
  {
    var k := PlanWithType(plans, planType);
    if k.Some? && plans[k.value].isActive then Some(plans[k.value]) else None
  }

  /** `findUnique({ planType })`, active or not. */
  function PlanOfType(plans: map<string, PlanConfig>, planType: string): (p: Option<PlanConfig>)
    requires PlansWellFormed(plans)
    ensures p.Some? ==> p.value in plans.Values && p.value.planType == planType
    ensures p.None? ==> forall k :: k in plans ==> plans[k].planType != planType
  {
    var k := PlanWithType(plans, planType);
    if k.Some? then Some(plans[k.value]) else None
  }

  function PlanTypeOf(p: PlanConfig): string {
    p.planType
  }

  /** `xs` lists exactly the plans of `m`, once each, ascending by plan type. */
  ghost predicate ListsPlans(xs: seq<PlanConfig>, m: map<string, PlanConfig>) {
    && |xs| == |m|
    && (forall p :: p in xs <==> p in m.Values)
    && Text.SortedByKey(xs, PlanTypeOf)
  }

  // The handlers

  /** What a successful enrolment reports. */
  datatype Enrollment = Enrollment(userId: string, membershipRowId: string, name: string, email: string,
                                   planType: string, state: Option<string>, status: string)

  /** `enrollMembership`: the public join form. Creates a password-less user
      and a PENDING request for an active plan together, or nothing at all.
      The row ids the database hands out are `userRowId` and `membershipRowId`. */
  method EnrollMembership(db: Database, name: Option<string>, email: Option<string>, phone: Option<string>,
                          state: Option<string>, planType: Option<string>,
                          userRowId: string, membershipRowId: string)
    returns (r: Response<Enrollment>)
    requires db.Valid()
    requires userRowId !in db.users && FreshRowId(db.memberships, membershipRowId)
    modifies db
    ensures db.Valid()
    ensures db.plans == old(db.plans) && db.counters == old(db.counters) && db.payments == old(db.payments)
    ensures !(Present(name) && Present(email) && Present(phone) && Present(planType)) ==>
      && r == Failure(400, "Name, email, phone, and plan are required")
      && db.users == old(db.users) && db.memberships == old(db.memberships)
    ensures Present(name) && Present(email) && Present(phone) && Present(planType) ==>
      if UserWithEmail(old(db.users), email.value).Some? then
        && r == Failure(400, "An account with this email already exists. Please login.")
        && db.users == old(db.users) && db.memberships == old(db.memberships)
      else if ActivePlanOfType(old(db.plans), planType.value).None? then
        && r == Failure(400, "Invalid plan selected")
        && db.users == old(db.users) && db.memberships == old(db.memberships)
      else
        var plan := ActivePlanOfType(old(db.plans), planType.value).value;
        && r == Success(201, Enrollment(userRowId, membershipRowId, name.value, email.value, planType.value,
                                        state, PENDING))
        && db.users == old(db.users)[userRowId := User(userRowId, name.value, email.value, phone.value,
                                                       None, false, "USER")]
        && db.memberships == old(db.memberships)[userRowId :=
             EnrolledMembership(membershipRowId, userRowId, planType.value, state, plan)]
  {
    if !(Present(name) && Present(email) && Present(phone) && Present(planType)) {
      return Failure(400, "Name, email, phone, and plan are required");
    }
    if UserWithEmail(db.users, email.value).Some? {
      return Failure(400, "An account with this email already exists. Please login.");
    }
    var plan := ActivePlanOfType(db.plans, planType.value);
    if plan.None? {
      return Failure(400, "Invalid plan selected");
    }
    var user := User(userRowId, name.value, email.value, phone.value, None, false, "USER");
    var membership := EnrolledMembership(membershipRowId, userRowId, planType.value, state, plan.value);
    AddUser(db.users, db.memberships, user);
    assert userRowId !in db.memberships;
    AddMembership(db.memberships, db.users[userRowId := user], membership);
    db.users := db.users[userRowId := user];
    db.memberships := db.memberships[userRowId := membership];
    return Success(201, Enrollment(userRowId, membershipRowId, name.value, email.value, planType.value,
                                   state, PENDING));
  }

  /** What `getMembership` reports: no membership and the active plans, or
      the caller's record (with its derived status) and its remaining days. */
  datatype MembershipView =
    | NoMembership(plans: seq<PlanConfig>)
    | Current(membership: Membership, remainingDays: int)

  /** `getMembership`: the caller's membership as of `now`. An ACTIVE record
      past its end date is reported, and stored, as EXPIRED; nothing else in
      the database changes. */
  method GetMembership(db: Database, userId: string, now: int) returns (r: Response<MembershipView>)
    requires db.Valid()
    modifies db
    ensures db.Valid()
    ensures db.users == old(db.users) && db.plans == old(db.plans)
    ensures db.counters == old(db.counters) && db.payments == old(db.payments)
    ensures r.Success? && r.status == 200
    ensures userId !in old(db.memberships) ==>
      && db.memberships == old(db.memberships)
      && r.value.NoMembership?
      && ListsPlans(r.value.plans, ActivePlans(db.plans))
    ensures userId in old(db.memberships) ==>
      var m := old(db.memberships)[userId];
      && db.memberships == old(db.memberships)[userId := m.(status := DerivedStatus(m, now))]
      && r.value == Current(m.(status := DerivedStatus(m, now)), RemainingDays(m))
  {
    if userId !in db.memberships {
      var plans := Text.SortedValues(ActivePlans(db.plans), PlanTypeOf);
      return Success(200, NoMembership(plans));
    }
    var m := db.memberships[userId];
    var status := m.status;
    if m.endDate.Some? && now > m.endDate.value && status == ACTIVE {
      status := EXPIRED;
      ReplaceMembership(db.memberships, db.users, userId, m.(status := EXPIRED));
      db.memberships := db.memberships[userId := m.(status := EXPIRED)];
    }
    var remainingDays := (m.totalDays + m.customDaysAdded.GetOr(0)) - m.usedDays;
    return Success(200, Current(m.(status := status), remainingDays));
  }

  /** What a successful plan choice reports. */
  datatype PlanChoice = PlanChoice(membership: Membership, planName: string, price: int)

  /** `choosePlan`: the caller asks for plan `planType`. `pending` is the
      existing record the reply carries when a request is already pending.
      `rowId` is the row id the database hands out for a new record. */
  method ChoosePlan(db: Database, userId: string, planType: Option<string>, rowId: string)
    returns (r: Response<PlanChoice>, pending: Option<Membership>)
    requires db.Valid() && FreshRowId(db.memberships, rowId)
    modifies db
    ensures db.Valid()
    ensures db.users == old(db.users) && db.plans == old(db.plans)
    ensures db.counters == old(db.counters) && db.payments == old(db.payments)
    ensures r.Failure? ==> db.memberships == old(db.memberships)
    ensures pending.Some? ==>
      && r == Failure(400, "You already have a pending membership request.")
      && userId in old(db.memberships) && pending.value == old(db.memberships)[userId]
    ensures r == Failure(400, "You already have a pending membership request.") ==> pending.Some?
    ensures planType.None? || planType.value !in ["1Y", "3Y", "5Y"] ==>
      r == Failure(400, "Invalid plan type. Use \"1Y\", \"3Y\", or \"5Y\".")
    ensures planType.Some? && planType.value in ["1Y", "3Y", "5Y"] ==>
      if userId in old(db.memberships) && old(db.memberships)[userId].status == ACTIVE then
        r == Failure(400, "You already have an active membership.")
      else if userId in old(db.memberships) && old(db.memberships)[userId].status == PENDING then
        pending.Some?
      else if PlanOfType(old(db.plans), planType.value).None? then
        r == Failure(400, "Plan configuration not found.")
      else
        var plan := PlanOfType(old(db.plans), planType.value).value;
        if userId in old(db.memberships) then
          var m := ResetToPending(old(db.memberships)[userId], planType.value, plan);
          && db.memberships == old(db.memberships)[userId := m]
          && r == Success(201, PlanChoice(m, plan.name, plan.price))
        else if userId !in old(db.users) then
          r == Failure(500, "Failed to select plan")
        else
          var m := EnrolledMembership(rowId, userId, planType.value, None, plan);
          && db.memberships == old(db.memberships)[userId := m]
          && r == Success(201, PlanChoice(m, plan.name, plan.price))
  {
    pending := None;
    if planType.None? || planType.value !in ["1Y", "3Y", "5Y"] {
      return Failure(400, "Invalid plan type. Use \"1Y\", \"3Y\", or \"5Y\"."), pending;
    }
    var existing: Option<Membership> := if userId in db.memberships then Some(db.memberships[userId]) else None;
    if existing.Some? {
      if existing.value.status == ACTIVE {
        return Failure(400, "You already have an active membership."), pending;
      }
      if existing.value.status == PENDING {
        pending := existing;
        return Failure(400, "You already have a pending membership request."), pending;
      }
    }
    var plan := PlanOfType(db.plans, planType.value);
    if plan.None? {
      return Failure(400, "Plan configuration not found."), pending;
    }
    var m: Membership;
    if existing.Some? {
      m := ResetToPending(existing.value, planType.value, plan.value);
      ReplaceMembership(db.memberships, db.users, userId, m);
    } else {
      if userId !in db.users {
        return Failure(500, "Failed to select plan"), pending;
      }
      m := EnrolledMembership(rowId, userId, planType.value, None, plan.value);
      AddMembership(db.memberships, db.users, m);
    }
    db.memberships := db.memberships[userId := m];
    r := Success(201, PlanChoice(m, plan.value.name, plan.value.price));
  }

  /** The default plans would collide with an existing plan type. */
  ghost predicate SeedClashes(plans: map<string, PlanConfig>) {
    exists k :: k in plans && plans[k].planType in ["1Y", "3Y", "5Y"]
  }

  /** `getPlans`, the public plan list, as written: when no plan is active it
      writes the three default plans, which fails on the unique plan type as
      soon as one of them exists inactive. `id1`..`id3` are the row ids the
      database hands out for the defaults. */
  method GetPlans(db: Database, id1: string, id2: string, id3: string) returns (r: Response<seq<PlanConfig>>)
    requires db.Valid()
    requires id1 != id2 && id1 != id3 && id2 != id3
    requires id1 !in db.plans && id2 !in db.plans && id3 !in db.plans
    modifies db
    ensures db.Valid()
    ensures db.users == old(db.users) && db.memberships == old(db.memberships)
    ensures db.counters == old(db.counters) && db.payments == old(db.payments)
    ensures ActivePlans(old(db.plans)) != map[] ==> db.plans == old(db.plans)
    ensures ActivePlans(old(db.plans)) == map[] && SeedClashes(old(db.plans)) ==>
      db.plans == old(db.plans) && r == Failure(500, "Failed to get plans")
    ensures ActivePlans(old(db.plans)) == map[] && !SeedClashes(old(db.plans)) ==>
      db.plans == old(db.plans) + DefaultPlans(id1, id2, id3)
    ensures r.Success? <==> !(ActivePlans(old(db.plans)) == map[] && SeedClashes(old(db.plans)))
    ensures r.Success? ==> r.status == 200 && ListsPlans(r.value, ActivePlans(db.plans))
  {
    var plans := Text.SortedValues(ActivePlans(db.plans), PlanTypeOf);
    if |plans| == 0 {
      assert ActivePlans(db.plans) == map[];
      if exists k :: k in db.plans && db.plans[k].planType in ["1Y", "3Y", "5Y"] {
        return Failure(500, "Failed to get plans");
      }
      SeedKeepsPlansWellFormed(db.plans, id1, id2, id3);
      db.plans := db.plans + DefaultPlans(id1, id2, id3);
      plans := Text.SortedValues(ActivePlans(db.plans), PlanTypeOf);
    }
    return Success(200, plans);
  }

  /** A plan table holding only an inactive 1Y plan: nothing is active, so
      `GetPlans` seeds, and the seed collides with the existing 1Y row. */
  lemma InactivePlansBreakGetPlans()
    ensures var plans := map["p1" := PlanConfig("p1", "1Y", "1-Year Membership", None, 6, 9999, false, [])];
      PlansWellFormed(plans) && ActivePlans(plans) == map[] && SeedClashes(plans)
  {
    var plans := map["p1" := PlanConfig("p1", "1Y", "1-Year Membership", None, 6, 9999, false, [])];
    assert plans["p1"].planType in ["1Y", "3Y", "5Y"];
    assert "p1" !in ActivePlans(plans);
  }

  /** The public plan list as intended: the defaults are written only into an
      empty table (as `getPlanConfigs` does), so the list never fails and
      always shows exactly the active plans. */
  method GetPlansSeedingEmptyTable(db: Database, id1: string, id2: string, id3: string)
    returns (r: Response<seq<PlanConfig>>)
    requires db.Valid()
    requires id1 != id2 && id1 != id3 && id2 != id3
    modifies db
    ensures db.Valid()
    ensures db.users == old(db.users) && db.memberships == old(db.memberships)
    ensures db.counters == old(db.counters) && db.payments == old(db.payments)
    ensures old(db.plans) == map[] ==> db.plans == DefaultPlans(id1, id2, id3)
    ensures old(db.plans) != map[] ==> db.plans == old(db.plans)
    ensures r.Success? && r.status == 200 && ListsPlans(r.value, ActivePlans(db.plans))
  {
    if |db.plans| == 0 {
      db.plans := DefaultPlans(id1, id2, id3);
    }
    var plans := Text.SortedValues(ActivePlans(db.plans), PlanTypeOf);
    return Success(200, plans);
  }

  /** Adding the defaults to a table that holds none of their plan types and
      none of their row ids keeps plan types unique. */
  lemma SeedKeepsPlansWellFormed(plans: map<string, PlanConfig>, id1: string, id2: string, id3: string)
    requires PlansWellFormed(plans) && !SeedClashes(plans)
    requires id1 != id2 && id1 != id3 && id2 != id3
    requires id1 !in plans && id2 !in plans && id3 !in plans
    ensures PlansWellFormed(plans + DefaultPlans(id1, id2, id3))
  {
    var d := DefaultPlans(id1, id2, id3);
    var all := plans + d;
    forall a, b | a in all && b in all && a != b
      ensures all[a].planType != all[b].planType
    {
      if a in d && b !in d {
        assert all[b] == plans[b];
        assert all[a].planType in ["1Y", "3Y", "5Y"];
      } else if b in d && a !in d {
        assert all[a] == plans[a];
        assert all[b].planType in ["1Y", "3Y", "5Y"];
      }
    }
  }

  /** `markPaymentDone`: on a PENDING record, records a successful payment of
      the snapshot amount (none counts as zero) and marks the record PAID; the
      status stays PENDING until an operator activates it. */
  method MarkPaymentDone(db: Database, userId: string, paymentMethod: Option<string>,
                         transactionId: Option<string>, notes: Option<string>)
    returns (r: Response<string>)
    requires db.Valid()
    modifies db
    ensures db.Valid()
    ensures db.users == old(db.users) && db.plans == old(db.plans) && db.counters == old(db.counters)
    ensures userId !in old(db.memberships) ==>
      r == Failure(404, "No membership found") && db.memberships == old(db.memberships) && db.payments == old(db.payments)
    ensures userId in old(db.memberships) && old(db.memberships)[userId].status != PENDING ==>
      && r == Failure(400, "Membership is not in pending state")
      && db.memberships == old(db.memberships) && db.payments == old(db.payments)
    ensures userId in old(db.memberships) && old(db.memberships)[userId].status == PENDING ==>
      var m := old(db.memberships)[userId];
      && r == Success(200, "Payment recorded. Our team will verify and activate your membership shortly.")
      && db.payments == old(db.payments) + [Payment(userId, m.id, m.paymentAmount.GetOr(0), paymentMethod,
                                                    transactionId, notes, "SUCCESS")]
      && db.memberships == old(db.memberships)[userId := m.(paymentStatus := PAID)]
      && db.memberships[userId].status == PENDING
  {
    if userId !in db.memberships {
      return Failure(404, "No membership found");
    }
    var m := db.memberships[userId];
    if m.status != PENDING {
      return Failure(400, "Membership is not in pending state");
    }
    var amount := if m.paymentAmount.Some? && m.paymentAmount.value != 0 then m.paymentAmount.value else 0;
    assert amount == m.paymentAmount.GetOr(0);
    var paid := m.(paymentStatus := PAID);
    ReplaceMembership(db.memberships, db.users, userId, paid);
    db.payments := db.payments + [Payment(userId, m.id, amount, paymentMethod, transactionId, notes, "SUCCESS")];
    db.memberships := db.memberships[userId := paid];
    return Success(200, "Payment recorded. Our team will verify and activate your membership shortly.");
  }

  /** `cancelMembership`: deletes the caller's record, and only while it is
      PENDING. */
  method CancelMembership(db: Database, userId: string) returns (r: Response<string>)
    requires db.Valid()
    modifies db
    ensures db.Valid()
    ensures db.users == old(db.users) && db.plans == old(db.plans)
    ensures db.counters == old(db.counters) && db.payments == old(db.payments)
    ensures userId !in old(db.memberships) ==>
      r == Failure(404, "No membership found") && db.memberships == old(db.memberships)
    ensures userId in old(db.memberships) && old(db.memberships)[userId].status != PENDING ==>
      r == Failure(400, "Cannot cancel active or expired membership") && db.memberships == old(db.memberships)
    ensures userId in old(db.memberships) && old(db.memberships)[userId].status == PENDING ==>
      r == Success(200, "Membership request cancelled") && db.memberships == old(db.memberships) - {userId}
  {
    if userId !in db.memberships {
      return Failure(404, "No membership found");
    }
    if db.memberships[userId].status != PENDING {
      return Failure(400, "Cannot cancel active or expired membership");
    }
    RemoveMembership(db.memberships, db.users, userId);
    db.memberships := db.memberships - {userId};
    return Success(200, "Membership request cancelled");
  }
}
