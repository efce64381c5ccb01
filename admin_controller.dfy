/** The operator handlers for memberships and plans
    (backend/src/controllers/adminController.ts): activate, reject and extend
    a membership, list and edit plan configurations, and set a member's
    custom overrides. Each requires the caller to pass the operations gate
    (ADMIN or OPS), listing plans only the support gate; memberships are
    addressed by their row id. The current instant is `now` and the current
    calendar year `year`. */
module AdminController {
  import opened Wrappers
  import opened Persistence
  import AdminMiddleware
  import MembershipIds
  import Text
  import MembershipController

  const DAY_MS: int := 24 * 60 * 60 * 1000

  /** `now + n` days. */
  function AddDays(t: int, n: int): (r: int)
    ensures n > 0 ==> r > t
    ensures n < 0 ==> r < t
  {
    t + n * DAY_MS
  }

  /** `now + n` years, a year counted as 365 days. */
  function AddYears(t: int, n: int): (r: int)
    ensures n > 0 ==> r > t
  {
    AddDays(t, n * 365)
  }

  /** `yearsToAdd`: 3 for '3Y', 5 for '5Y', 1 for every other plan type. */
  function YearsFor(planType: string): (n: int)
    ensures n == 1 || n == 3 || n == 5
    ensures n == 3 <==> planType == "3Y"
    ensures n == 5 <==> planType == "5Y"
  {
    if planType == "3Y" then 3 else if planType == "5Y" then 5 else 1
  }

  /** The record after activation with member number `number` at `now`:
      ACTIVE and PAID, started and activated now, ending the plan's number of
      years later; nothing else changes. */
  function Activated(m: Membership, number: string, now: int): (r: Membership)
    ensures r.status == ACTIVE && r.paymentStatus == PAID && r.membershipId == Some(number)
    ensures r.startDate == Some(now) && r.activatedAt == Some(now)
    ensures r.endDate == Some(AddYears(now, YearsFor(m.planType)))
    ensures r.id == m.id && r.userId == m.userId && r.planType == m.planType
    ensures r.totalDays == m.totalDays && r.usedDays == m.usedDays && r.customDaysAdded == m.customDaysAdded
    ensures r.customDestinationIds == m.customDestinationIds && r.state == m.state
    ensures r.paymentAmount == m.paymentAmount
  {
    m.(membershipId := Some(number), status := ACTIVE, paymentStatus := PAID, startDate := Some(now),
       endDate := Some(AddYears(now, YearsFor(m.planType))), activatedAt := Some(now))
  }

  /** An activated membership reads as ACTIVE up to and including its end
      instant and as EXPIRED after it. */
  lemma ActiveUntilEndDate(m: Membership, number: string, now: int, t: int)
    ensures var a := Activated(m, number, now);
      && (t <= a.endDate.value ==> MembershipController.DerivedStatus(a, t) == ACTIVE)
      && (t > a.endDate.value ==> MembershipController.DerivedStatus(a, t) == EXPIRED)
      && MembershipController.DerivedStatus(a, now) == ACTIVE
  {
  }

  /** The record after `extendMembership`: `additionalDays`, when given and
      non-zero, is added to the plan days; `extendEndDate`, when given and
      non-zero, moves an existing end date by that many days. A record with
      no end date keeps none. Nothing else changes. */
  function Extended(m: Membership, additionalDays: Option<int>, extendEndDate: Option<int>): (r: Membership)
    ensures additionalDays.Some? && additionalDays.value != 0 ==> r.totalDays == m.totalDays + additionalDays.value
    ensures !(additionalDays.Some? && additionalDays.value != 0) ==> r.totalDays == m.totalDays
    ensures extendEndDate.Some? && extendEndDate.value != 0 && m.endDate.Some? ==>
      r.endDate == Some(AddDays(m.endDate.value, extendEndDate.value))
    ensures !(extendEndDate.Some? && extendEndDate.value != 0 && m.endDate.Some?) ==> r.endDate == m.endDate
    ensures r == m.(totalDays := r.totalDays, endDate := r.endDate)
  {
    var m1 := if additionalDays.Some? && additionalDays.value != 0
              then m.(totalDays := m.totalDays + additionalDays.value) else m;
    if extendEndDate.Some? && extendEndDate.value != 0 && m.endDate.Some?
    then m1.(endDate := Some(AddDays(m.endDate.value, extendEndDate.value)))
    else m1
  }

  /** Extending by `d` plan days adds exactly `d` to the remaining days. */
  lemma ExtendAddsRemainingDays(m: Membership, d: int, extendEndDate: Option<int>)
    ensures MembershipController.RemainingDays(Extended(m, Some(d), extendEndDate))
         == MembershipController.RemainingDays(m) + d
  {
  }

  /** The record after `updateMembership`: each supplied override replaces
      the stored one (the destination list is replaced, not merged); absent
      ones are left as they were. */
  function WithOverrides(m: Membership, customDaysAdded: Option<int>,
                         customDestinationIds: Option<seq<string>>): (r: Membership)
    ensures customDaysAdded.Some? ==> r.customDaysAdded == customDaysAdded
    ensures customDaysAdded.None? ==> r.customDaysAdded == m.customDaysAdded
    ensures customDestinationIds.Some? ==> r.customDestinationIds == customDestinationIds.value
    ensures customDestinationIds.None? ==> r.customDestinationIds == m.customDestinationIds
    ensures r == m.(customDaysAdded := r.customDaysAdded, customDestinationIds := r.customDestinationIds)
  {
    var m1 := if customDaysAdded.Some? then m.(customDaysAdded := customDaysAdded) else m;
    if customDestinationIds.Some? then m1.(customDestinationIds := customDestinationIds.value) else m1
  }

  /** Setting the extra days replaces them: the remaining days become plan
      days plus the new value minus used days, whatever was there before. */
  lemma OverrideSetsRemainingDays(m: Membership, c: int, customDestinationIds: Option<seq<string>>)
    ensures MembershipController.RemainingDays(WithOverrides(m, Some(c), customDestinationIds))
         == m.totalDays + c - m.usedDays
  {
  }

  /** The walk-through of a member's life: enrolment in the six-day 1Y plan,
      activation, five extra days, then the destination override. */
  lemma LifecycleScenario(rowId: string, userId: string, plan: PlanConfig, number: string, now: int,
                          x: string, y: string)
    requires plan.planType == "1Y" && plan.days == 6
    ensures var m0 := MembershipController.EnrolledMembership(rowId, userId, "1Y", None, plan);
      var m1 := Activated(m0, number, now);
      var m2 := Extended(m1, Some(5), None);
      var m3 := WithOverrides(m2, None, Some([x, y]));
      && m0.status == PENDING && m0.paymentStatus == UNPAID && m0.totalDays == 6
      && m0.paymentAmount == Some(plan.price)
      && m1.status == ACTIVE && m1.paymentStatus == PAID && m1.startDate == Some(now)
      && m1.endDate == Some(AddYears(now, 1))
      && m2.totalDays == 11
      && m3.customDestinationIds == [x, y]
      && MembershipController.RemainingDays(m3) == 11
  {
  }

  /** Some membership other than `u`'s already carries member number `number`. */
  ghost predicate NumberTaken(ms: map<string, Membership>, u: string, number: string) {
    exists v :: v in ms && v != u && ms[v].membershipId == Some(number)
  }

  /** What a successful activation reports. */
  datatype Activation = Activation(membershipId: string, membership: Membership)

  /** `activateMembership`: any record that is not already ACTIVE is
      activated with a freshly allocated member number. The counter is
      advanced before the record is written, so it stays advanced when the
      write fails on the unique member number. The notification e-mail cannot
      fail the request and is not modelled. */
  method ActivateMembership(db: Database, caller: AdminMiddleware.AuthUser, id: string, now: int, year: nat)
    returns (r: Response<Activation>)
    requires db.Valid() && AdminMiddleware.Ops(Some(caller))
    modifies db
    ensures db.Valid()
    ensures db.users == old(db.users) && db.plans == old(db.plans) && db.payments == old(db.payments)
    ensures OwnerOfRow(old(db.memberships), id).None? ==>
      && r == Failure(404, "Membership not found")
      && db.memberships == old(db.memberships) && db.counters == old(db.counters)
    ensures OwnerOfRow(old(db.memberships), id).Some? ==>
      var u := OwnerOfRow(old(db.memberships), id).value;
      var m := old(db.memberships)[u];
      var counter := MembershipIds.NextCounter(old(db.counters), year);
      var number := MembershipIds.FormatMembershipId(year, counter);
      if m.status == ACTIVE then
        && r == Failure(400, "Membership is already active")
        && db.memberships == old(db.memberships) && db.counters == old(db.counters)
      else
        && db.counters == old(db.counters)[year := counter]
        && (NumberTaken(old(db.memberships), u, number) ==>
              r == Failure(500, "Failed to activate membership") && db.memberships == old(db.memberships))
        && (!NumberTaken(old(db.memberships), u, number) ==>
              && db.memberships == old(db.memberships)[u := Activated(m, number, now)]
              && r == Success(200, Activation(number, Activated(m, number, now))))
  {
    var owner := OwnerOfRow(db.memberships, id);
    if owner.None? {
      return Failure(404, "Membership not found");
    }
    var u := owner.value;
    var m := db.memberships[u];
    if m.status == ACTIVE {
      return Failure(400, "Membership is already active");
    }
    var number := MembershipIds.GenerateMembershipId(db, year);
    if exists v :: v in db.memberships && v != u && db.memberships[v].membershipId == Some(number) {
      return Failure(500, "Failed to activate membership");
    }
    var activated := Activated(m, number, now);
    AssignNumber(db.memberships, db.users, u, activated);
    db.memberships := db.memberships[u := activated];
    return Success(200, Activation(number, activated));
  }

  /** What a rejection reports: the reason is echoed, not stored. */
  datatype Rejection = Rejection(message: string, reason: Option<string>)

  /** `rejectMembership`: deletes the record whatever its status. */
  method RejectMembership(db: Database, caller: AdminMiddleware.AuthUser, id: string, reason: Option<string>)
    returns (r: Response<Rejection>)
    requires db.Valid() && AdminMiddleware.Ops(Some(caller))
    modifies db
    ensures db.Valid()
    ensures db.users == old(db.users) && db.plans == old(db.plans)
    ensures db.counters == old(db.counters) && db.payments == old(db.payments)
    ensures OwnerOfRow(old(db.memberships), id).None? ==>
      r == Failure(404, "Membership not found") && db.memberships == old(db.memberships)
    ensures OwnerOfRow(old(db.memberships), id).Some? ==>
      && r == Success(200, Rejection("Membership request rejected", reason))
      && db.memberships == old(db.memberships) - {OwnerOfRow(old(db.memberships), id).value}
  {
    var owner := OwnerOfRow(db.memberships, id);
    if owner.None? {
      return Failure(404, "Membership not found");
    }
    RemoveMembership(db.memberships, db.users, owner.value);
    db.memberships := db.memberships - {owner.value};
    return Success(200, Rejection("Membership request rejected", reason));
  }

  /** `extendMembership`. */
  method ExtendMembership(db: Database, caller: AdminMiddleware.AuthUser, id: string,
                          additionalDays: Option<int>, extendEndDate: Option<int>)
    returns (r: Response<Membership>)
    requires db.Valid() && AdminMiddleware.Ops(Some(caller))
    modifies db
    ensures db.Valid()
    ensures db.users == old(db.users) && db.plans == old(db.plans)
    ensures db.counters == old(db.counters) && db.payments == old(db.payments)
    ensures OwnerOfRow(old(db.memberships), id).None? ==>
      r == Failure(404, "Membership not found") && db.memberships == old(db.memberships)
    ensures OwnerOfRow(old(db.memberships), id).Some? ==>
      var u := OwnerOfRow(old(db.memberships), id).value;
      var m := Extended(old(db.memberships)[u], additionalDays, extendEndDate);
      r == Success(200, m) && db.memberships == old(db.memberships)[u := m]
  {
    var owner := OwnerOfRow(db.memberships, id);
    if owner.None? {
      return Failure(404, "Membership not found");
    }
    var u := owner.value;
    var m := Extended(db.memberships[u], additionalDays, extendEndDate);
    ReplaceMembership(db.memberships, db.users, u, m);
    db.memberships := db.memberships[u := m];
    return Success(200, m);
  }

  /** The two default plans `getPlanConfigs` writes, under the row ids given. */
  function AdminDefaultPlans(id1: string, id2: string): (m: map<string, PlanConfig>)
    requires id1 != id2
    ensures m.Keys == {id1, id2}
    ensures PlansWellFormed(m)
    ensures m[id1].planType == "1Y" && m[id1].days == 6 && m[id1].price == 9999
    ensures m[id2].planType == "3Y" && m[id2].days == 18 && m[id2].price == 24999
  {
    map[id1 := PlanConfig(id1, "1Y", "1-Year Membership", None, 6, 9999, true, []),
        id2 := PlanConfig(id2, "3Y", "3-Year Membership", None, 18, 24999, true, [])]
  }

  /** `getPlanConfigs`: every plan, inactive ones included, by plan type; an
      empty table is first seeded with the 1Y and 3Y defaults only. */
  method GetPlanConfigs(db: Database, caller: AdminMiddleware.AuthUser, id1: string, id2: string)
    returns (r: Response<seq<PlanConfig>>)
    requires db.Valid() && AdminMiddleware.Support(Some(caller)) && id1 != id2
    modifies db
    ensures db.Valid()
    ensures db.users == old(db.users) && db.memberships == old(db.memberships)
    ensures db.counters == old(db.counters) && db.payments == old(db.payments)
    ensures old(db.plans) == map[] ==> db.plans == AdminDefaultPlans(id1, id2)
    ensures old(db.plans) != map[] ==> db.plans == old(db.plans)
    ensures r.Success? && r.status == 200 && MembershipController.ListsPlans(r.value, db.plans)
  {
    var plans := Text.SortedValues(db.plans, MembershipController.PlanTypeOf);
    if |plans| == 0 {
      db.plans := AdminDefaultPlans(id1, id2);
      plans := Text.SortedValues(db.plans, MembershipController.PlanTypeOf);
    }
    return Success(200, plans);
  }

  /** The fields `updatePlanConfig` may change; `None` is a field left out
      of the request. The description may be sent as `null`, which clears
      it: `Some(None)`. */
  datatype PlanPatch = PlanPatch(
    name: Option<string>,
    description: Option<Option<string>>,
    days: Option<int>,
    price: Option<int>,
    isActive: Option<bool>,
    destinationIds: Option<seq<string>>)

  /** The plan after the patch: each supplied field replaced, every other
      field (row id and plan type included) as it was. */
  function PatchedPlan(p: PlanConfig, patch: PlanPatch): (r: PlanConfig)
    ensures r.id == p.id && r.planType == p.planType
    ensures r.name == (if patch.name.Some? then patch.name.value else p.name)
    ensures r.description == (if patch.description.Some? then patch.description.value else p.description)
    ensures r.days == (if patch.days.Some? then patch.days.value else p.days)
    ensures r.price == (if patch.price.Some? then patch.price.value else p.price)
    ensures r.isActive == (if patch.isActive.Some? then patch.isActive.value else p.isActive)
    ensures r.destinationIds == (if patch.destinationIds.Some? then patch.destinationIds.value else p.destinationIds)
  {
    PlanConfig(p.id, p.planType, patch.name.GetOr(p.name),
               patch.description.GetOr(p.description),
               patch.days.GetOr(p.days), patch.price.GetOr(p.price), patch.isActive.GetOr(p.isActive),
               patch.destinationIds.GetOr(p.destinationIds))
  }

  /** An empty patch changes nothing, and patching is idempotent. */
  lemma PatchLaws(p: PlanConfig, patch: PlanPatch)
    ensures PatchedPlan(p, PlanPatch(None, None, None, None, None, None)) == p
    ensures PatchedPlan(PatchedPlan(p, patch), patch) == PatchedPlan(p, patch)
  {
  }

  /** `updatePlanConfig`: an unknown plan id makes the update fail (500). */
  method UpdatePlanConfig(db: Database, caller: AdminMiddleware.AuthUser, id: string, patch: PlanPatch)
    returns (r: Response<PlanConfig>)
    requires db.Valid() && AdminMiddleware.Ops(Some(caller))
    modifies db
    ensures db.Valid()
    ensures db.users == old(db.users) && db.memberships == old(db.memberships)
    ensures db.counters == old(db.counters) && db.payments == old(db.payments)
    ensures id !in old(db.plans) ==>
      r == Failure(500, "Failed to update plan configuration") && db.plans == old(db.plans)
    ensures id in old(db.plans) ==>
      var p := PatchedPlan(old(db.plans)[id], patch);
      r == Success(200, p) && db.plans == old(db.plans)[id := p]
  {
    if id !in db.plans {
      return Failure(500, "Failed to update plan configuration");
    }
    var p := PatchedPlan(db.plans[id], patch);
    ReplacePlan(db.plans, id, p);
    db.plans := db.plans[id := p];
    return Success(200, p);
  }

  /** `updateMembership` as written: the path parameter names a user, but the
      record is looked up by its own row id, so a user id finds nothing and
      the update fails (500). */
  method UpdateMembership(db: Database, caller: AdminMiddleware.AuthUser, id: string,
                          customDaysAdded: Option<int>, customDestinationIds: Option<seq<string>>)
    returns (r: Response<Membership>)
    requires db.Valid() && AdminMiddleware.Ops(Some(caller))
    modifies db
    ensures db.Valid()
    ensures db.users == old(db.users) && db.plans == old(db.plans)
    ensures db.counters == old(db.counters) && db.payments == old(db.payments)
    ensures OwnerOfRow(old(db.memberships), id).None? ==>
      r == Failure(500, "Failed to update membership") && db.memberships == old(db.memberships)
    ensures OwnerOfRow(old(db.memberships), id).Some? ==>
      var u := OwnerOfRow(old(db.memberships), id).value;
      var m := WithOverrides(old(db.memberships)[u], customDaysAdded, customDestinationIds);
      r == Success(200, m) && db.memberships == old(db.memberships)[u := m]
  {
    var owner := OwnerOfRow(db.memberships, id);
    if owner.None? {
      return Failure(500, "Failed to update membership");
    }
    var u := owner.value;
    var m := WithOverrides(db.memberships[u], customDaysAdded, customDestinationIds);
    ReplaceMembership(db.memberships, db.users, u, m);
    db.memberships := db.memberships[u := m];
    return Success(200, m);
  }

  /** A user "u1" whose membership has row id "m1": addressed by the user's
      id, as the route and the admin console do, `UpdateMembership` finds no
      record although the user has one. */
  lemma UserIdMissesMembership()
    ensures var ms := map["u1" := MembershipController.EnrolledMembership("m1", "u1", "1Y", None,
                              PlanConfig("p1", "1Y", "1-Year Membership", None, 6, 9999, true, []))];
      "u1" in ms && OwnerOfRow(ms, "u1").None?
  {
  }

  /** `updateMembership` as intended: the overrides go to the membership of
      the user named in the path; only a user without one gets 500. */
  method UpdateMembershipOfUser(db: Database, caller: AdminMiddleware.AuthUser, userId: string,
                                customDaysAdded: Option<int>, customDestinationIds: Option<seq<string>>)
    returns (r: Response<Membership>)
    requires db.Valid() && AdminMiddleware.Ops(Some(caller))
    modifies db
    ensures db.Valid()
    ensures db.users == old(db.users) && db.plans == old(db.plans)
    ensures db.counters == old(db.counters) && db.payments == old(db.payments)
    ensures userId !in old(db.memberships) ==>
      r == Failure(500, "Failed to update membership") && db.memberships == old(db.memberships)
    ensures userId in old(db.memberships) ==>
      var m := WithOverrides(old(db.memberships)[userId], customDaysAdded, customDestinationIds);
      && r == Success(200, m) && db.memberships == old(db.memberships)[userId := m]
      && m.userId == userId
  {
    if userId !in db.memberships {
      return Failure(500, "Failed to update membership");
    }
    var m := WithOverrides(db.memberships[userId], customDaysAdded, customDestinationIds);
    ReplaceMembership(db.memberships, db.users, userId, m);
    db.memberships := db.memberships[userId := m];
    return Success(200, m);
  }
}
