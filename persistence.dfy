/** The relational tables the membership handlers work on (users, memberships,
    plan configurations, per-year counters and payments), held as one object
    whose fields the handlers update. The unique constraints of the database
    (user e-mail, one membership per user, membership row id, membership
    number, plan type, counter year) are the invariant `Valid`. */
module Persistence {
  import opened Wrappers

  // Membership statuses and payment statuses are free text in the tables;
  // these are the values the handlers write and test for.
  const PENDING: string := "PENDING"
  const ACTIVE: string := "ACTIVE"
  const EXPIRED: string := "EXPIRED"
  const UNPAID: string := "UNPAID"
  const PAID: string := "PAID"

  /** A user row. `password` holds a password hash, or nothing for members
      enrolled through the public form who have not chosen one yet. */
  datatype User = User(
    id: string,
    name: string,
    email: string,
    phone: string,
    password: Option<string>,
    passwordSet: bool,
    role: string)

  /** A membership row. Dates are instants in milliseconds; `membershipId` is
      the member number allocated at activation; `customDestinationIds` is the
      operator-curated destination list. */
  datatype Membership = Membership(
    id: string,
    userId: string,
    planType: string,
    membershipId: Option<string>,
    status: string,
    paymentStatus: string,
    totalDays: int,
    usedDays: int,
    customDaysAdded: Option<int>,
    customDestinationIds: seq<string>,
    startDate: Option<int>,
    endDate: Option<int>,
    activatedAt: Option<int>,
    state: Option<string>,
    paymentAmount: Option<int>)

  /** A plan configuration row; `destinationIds` is its default destination list. */
  datatype PlanConfig = PlanConfig(
    id: string,
    planType: string,
    name: string,
    description: Option<string>,
    days: int,
    price: int,
    isActive: bool,
    destinationIds: seq<string>)

  /** A payment row recorded by the manual payment flow. */
  datatype Payment = Payment(
    userId: string,
    membershipRowId: string,
    amount: int,
    paymentMethod: Option<string>,
    gatewayReference: Option<string>,
    notes: Option<string>,
    status: string)

  ghost predicate UsersWellFormed(users: map<string, User>) {
    && (forall k :: k in users ==> users[k].id == k)
    && (forall a, b :: a in users && b in users && a != b ==> users[a].email != users[b].email)
  }

  /** Memberships are keyed by their owner's user id (at most one per user);
      row ids and member numbers are unique. */
  ghost predicate MembershipsWellFormed(memberships: map<string, Membership>, users: map<string, User>) {
    && (forall u :: u in memberships ==> memberships[u].userId == u && u in users)
    && (forall a, b :: a in memberships && b in memberships && a != b ==>
          memberships[a].id != memberships[b].id)
    && (forall a, b :: a in memberships && b in memberships && a != b && memberships[a].membershipId.Some? ==>
          memberships[a].membershipId != memberships[b].membershipId)
  }

  ghost predicate PlansWellFormed(plans: map<string, PlanConfig>) {
    && (forall k :: k in plans ==> plans[k].id == k)
    && (forall a, b :: a in plans && b in plans && a != b ==> plans[a].planType != plans[b].planType)
  }

  /** The owner of the membership row `id`, if there is one. */
  function OwnerOfRow(memberships: map<string, Membership>, id: string): (owner: Option<string>)
    requires forall a, b :: a in memberships && b in memberships && a != b ==> memberships[a].id != memberships[b].id
    ensures owner.Some? ==> owner.value in memberships && memberships[owner.value].id == id
    ensures owner.None? ==> forall u :: u in memberships ==> memberships[u].id != id
  {
    if exists u :: u in memberships && memberships[u].id == id then
      var u :| u in memberships && memberships[u].id == id; Some(u)
    else None
  }

  /** The owner of the membership carrying member number `membershipId`. */
  function OwnerOfNumber(memberships: map<string, Membership>, membershipId: string): (owner: Option<string>)
    requires forall a, b :: a in memberships && b in memberships && a != b && memberships[a].membershipId.Some? ==>
      memberships[a].membershipId != memberships[b].membershipId
    ensures owner.Some? ==> owner.value in memberships && memberships[owner.value].membershipId == Some(membershipId)
    ensures owner.None? ==> forall u :: u in memberships ==> memberships[u].membershipId != Some(membershipId)
  {
    if exists u :: u in memberships && memberships[u].membershipId == Some(membershipId) then
      var u :| u in memberships && memberships[u].membershipId == Some(membershipId); Some(u)
    else None
  }

  /** The user registered under `email` (compared exactly). */
  function UserWithEmail(users: map<string, User>, email: string): (k: Option<string>)
    requires forall a, b :: a in users && b in users && a != b ==> users[a].email != users[b].email
    ensures k.Some? ==> k.value in users && users[k.value].email == email
    ensures k.None? ==> forall u :: u in users ==> users[u].email != email
  {
    if exists u :: u in users && users[u].email == email then
      var u :| u in users && users[u].email == email; Some(u)
    else None
  }

  /** The plan configuration whose plan type is `planType`. */
  function PlanWithType(plans: map<string, PlanConfig>, planType: string): (k: Option<string>)
    requires forall a, b :: a in plans && b in plans && a != b ==> plans[a].planType != plans[b].planType
    ensures k.Some? ==> k.value in plans && plans[k.value].planType == planType
    ensures k.None? ==> forall p :: p in plans ==> plans[p].planType != planType
  {
    if exists p :: p in plans && plans[p].planType == planType then
      var p :| p in plans && plans[p].planType == planType; Some(p)
    else None
  }

  /** True when no membership row has id `id` (a row id the database may hand out). */
  ghost predicate FreshRowId(memberships: map<string, Membership>, id: string) {
    forall u :: u in memberships ==> memberships[u].id != id
  }

  /** Replacing a membership by one with the same owner, row id and member
      number keeps the membership table well formed. */
  lemma ReplaceMembership(ms: map<string, Membership>, users: map<string, User>, u: string, m: Membership)
    requires MembershipsWellFormed(ms, users) && u in ms
    requires m.userId == u && m.id == ms[u].id && m.membershipId == ms[u].membershipId
    ensures MembershipsWellFormed(ms[u := m], users)
  {
    var ms' := ms[u := m];
    forall a, b | a in ms' && b in ms' && a != b
      ensures ms'[a].id != ms'[b].id
      ensures ms'[a].membershipId.Some? ==> ms'[a].membershipId != ms'[b].membershipId
    {
      assert ms'[a].id == ms[a].id && ms'[b].id == ms[b].id;
      assert ms'[a].membershipId == ms[a].membershipId && ms'[b].membershipId == ms[b].membershipId;
    }
  }

  /** Giving a membership a member number no other membership holds keeps
      the membership table well formed. */
  lemma AssignNumber(ms: map<string, Membership>, users: map<string, User>, u: string, m: Membership)
    requires MembershipsWellFormed(ms, users) && u in ms
    requires m.userId == u && m.id == ms[u].id
    requires forall v :: v in ms && v != u ==> ms[v].membershipId != m.membershipId
    ensures MembershipsWellFormed(ms[u := m], users)
  {
    var ms' := ms[u := m];
    forall a, b | a in ms' && b in ms' && a != b
      ensures ms'[a].id != ms'[b].id
      ensures ms'[a].membershipId.Some? ==> ms'[a].membershipId != ms'[b].membershipId
    {
      assert ms'[a].id == ms[a].id && ms'[b].id == ms[b].id;
      if a != u && b != u {
        assert ms'[a].membershipId == ms[a].membershipId && ms'[b].membershipId == ms[b].membershipId;
      }
    }
  }

  /** A new membership without a member number, for a user who has none,
      under an unused row id, keeps the membership table well formed. */
  lemma AddMembership(ms: map<string, Membership>, users: map<string, User>, m: Membership)
    requires MembershipsWellFormed(ms, users)
    requires m.userId in users && m.userId !in ms && FreshRowId(ms, m.id) && m.membershipId.None?
    ensures MembershipsWellFormed(ms[m.userId := m], users)
  {
  }

  /** Deleting a membership keeps the membership table well formed. */
  lemma RemoveMembership(ms: map<string, Membership>, users: map<string, User>, u: string)
    requires MembershipsWellFormed(ms, users)
    ensures MembershipsWellFormed(ms - {u}, users)
  {
  }

  /** A new user under an unused id and an unused e-mail keeps both tables
      well formed. */
  lemma AddUser(users: map<string, User>, ms: map<string, Membership>, user: User)
    requires UsersWellFormed(users) && MembershipsWellFormed(ms, users)
    requires user.id !in users && forall k :: k in users ==> users[k].email != user.email
    ensures UsersWellFormed(users[user.id := user]) && MembershipsWellFormed(ms, users[user.id := user])
  {
  }

  /** Changing a user's row without touching its id or e-mail keeps both
      tables well formed. */
  lemma ReplaceUser(users: map<string, User>, ms: map<string, Membership>, k: string, user: User)
    requires UsersWellFormed(users) && MembershipsWellFormed(ms, users) && k in users
    requires user.id == k && user.email == users[k].email
    ensures UsersWellFormed(users[k := user]) && MembershipsWellFormed(ms, users[k := user])
  {
    var users' := users[k := user];
    forall a, b | a in users' && b in users' && a != b
      ensures users'[a].email != users'[b].email
    {
      assert users'[a].email == users[a].email && users'[b].email == users[b].email;
    }
  }

  /** Changing a plan without touching its row id or plan type keeps plan
      types unique. */
  lemma ReplacePlan(plans: map<string, PlanConfig>, k: string, p: PlanConfig)
    requires PlansWellFormed(plans) && k in plans && p.id == k && p.planType == plans[k].planType
    ensures PlansWellFormed(plans[k := p])
  {
    var plans' := plans[k := p];
    forall a, b | a in plans' && b in plans' && a != b
      ensures plans'[a].planType != plans'[b].planType
    {
      assert plans'[a].planType == plans[a].planType && plans'[b].planType == plans[b].planType;
    }
  }

  class Database {
    var users: map<string, User>
    var memberships: map<string, Membership>
    var plans: map<string, PlanConfig>
    var counters: map<nat, nat>
    var payments: seq<Payment>

    ghost predicate Valid()
      reads this
    {
      && UsersWellFormed(users)
      && MembershipsWellFormed(memberships, users)
      && PlansWellFormed(plans)
      && (forall y :: y in counters ==> counters[y] >= 1)
    }

    /** An empty database. */
    constructor ()
      ensures Valid()
      ensures users == map[] && memberships == map[] && plans == map[]
      ensures counters == map[] && payments == []
    {
      users, memberships, plans, counters, payments := map[], map[], map[], map[], [];
    }
  }
}
