/** The canned replies of the travel assistant when the language model is
    unavailable (`getFallbackResponse` in backend/src/services/aiService.ts):
    keyword rules tried in a fixed order on the lower-cased message, the
    first that matches deciding the reply. The reply texts are represented
    by which reply was chosen and the values filled into it; the current
    month name is passed in. */
module AiService {
  import opened Wrappers
  import opened Persistence
  import Text
  import MembershipController
  import DestinationController

  /** The reply chosen, with the values it quotes. */
  datatype Reply =
    | DaysRemaining(remaining: int, totalDays: int, planLabel: string)
    | NotActivated
    | ExpiresOn(endDate: int)
    | ExpiryNotSet
    | AvailableNow(month: string, names: seq<string>)
    | NoneInSeason(month: string)
    | HowItWorks
    | UnusedDays
    | Default

  /** The five rules, each a test on the lower-cased message. */
  predicate AsksDaysLeft(lower: string) {
    Text.Contains(lower, "days") && (Text.Contains(lower, "left") || Text.Contains(lower, "remaining"))
  }
  predicate AsksExpiry(lower: string) {
    Text.Contains(lower, "expire") || Text.Contains(lower, "expiry")
  }
  predicate AsksAvailable(lower: string) {
    Text.Contains(lower, "destination") && Text.Contains(lower, "available")
  }
  predicate AsksHowItWorks(lower: string) {
    Text.Contains(lower, "membership") && Text.Contains(lower, "work")
  }
  predicate AsksUnused(lower: string) {
    Text.Contains(lower, "don't use") || Text.Contains(lower, "unused")
  }

  /** The plan named in the days reply: '1-Year' for 1Y, '3-Year' for any
      other plan type, 5Y included. */
  function PlanLabel(planType: string): (l: string)
    ensures planType == "1Y" <==> l == "1-Year"
    ensures planType != "1Y" <==> l == "3-Year"
  {
    if planType == "1Y" then "1-Year" else "3-Year"
  }

  /** A destination is in season for `month` when its stored months parse,
      name that month, and its status is 'available'; a row whose months do
      not parse is never in season. */
  predicate InSeason(d: DestinationController.Destination, month: string) {
    d.bestMonths.Months? && month in d.bestMonths.list && d.status == "available"
  }

  /** The in-season destinations, in their given order. */
  function InSeasonOnly(ds: seq<DestinationController.Destination>, month: string)
    : (r: seq<DestinationController.Destination>)
    ensures |r| <= |ds|
    ensures forall d :: d in r <==> d in ds && InSeason(d, month)
  {
    if ds == [] then []
    else if InSeason(ds[0], month) then [ds[0]] + InSeasonOnly(ds[1..], month)
    else InSeasonOnly(ds[1..], month)
  }

  /** The filter takes the destinations one at a time: a list's in-season
      destinations are those of its first part followed by those of the
      rest, so order and repeats are kept. */
  lemma {:induction false} InSeasonOnlyAppend(a: seq<DestinationController.Destination>,
                                               b: seq<DestinationController.Destination>, month: string)
    ensures InSeasonOnly(a + b, month) == InSeasonOnly(a, month) + InSeasonOnly(b, month)
    decreases |a|
  {
    if a == [] {
      assert a + b == b;
    } else {
      assert (a + b)[0] == a[0];
      assert (a + b)[1..] == a[1..] + b;
      InSeasonOnlyAppend(a[1..], b, month);
    }
  }

  /** A single destination is kept exactly when it is in season. */
  lemma InSeasonOnlySingle(d: DestinationController.Destination, month: string)
    ensures InSeasonOnly([d], month) == (if InSeason(d, month) then [d] else [])
  {
    assert [d][1..] == [];
  }

  function Names(ds: seq<DestinationController.Destination>): (names: seq<string>)
    ensures |names| == |ds| && forall i :: 0 <= i < |ds| ==> names[i] == ds[i].name
  {
    seq(|ds|, i requires 0 <= i < |ds| => ds[i].name)
  }

  /** `getFallbackResponse`. The days reply quotes plan days minus used days
      (operator extra days not counted) and the plan label; the expiry reply
      the end date; the season reply the names of the in-season
      destinations, or the no-match text; the remaining rules fixed texts.
      A rule fires only when no earlier rule did. */
  function FallbackResponse(message: string, membership: Option<Membership>,
                            destinations: seq<DestinationController.Destination>, currentMonth: string)
    : (r: Reply)
    ensures var lower := Text.ToLower(message);
      && (AsksDaysLeft(lower) ==>
            if membership.Some? then
              r == DaysRemaining(membership.value.totalDays - membership.value.usedDays,
                                 membership.value.totalDays, PlanLabel(membership.value.planType))
            else r == NotActivated)
      && (!AsksDaysLeft(lower) && AsksExpiry(lower) ==>
            if membership.Some? && membership.value.endDate.Some? then r == ExpiresOn(membership.value.endDate.value)
            else r == ExpiryNotSet)
      && (!AsksDaysLeft(lower) && !AsksExpiry(lower) && AsksAvailable(lower) ==>
            (r.AvailableNow? || r.NoneInSeason?)
            && (r.AvailableNow? <==> exists d :: d in destinations && InSeason(d, currentMonth))
            && (r.AvailableNow? ==> r == AvailableNow(currentMonth, Names(InSeasonOnly(destinations, currentMonth))))
            && (r.NoneInSeason? ==> r.month == currentMonth))
      && (!AsksDaysLeft(lower) && !AsksExpiry(lower) && !AsksAvailable(lower) && AsksHowItWorks(lower) ==>
            r == HowItWorks)
      && ((!AsksDaysLeft(lower) && !AsksExpiry(lower) && !AsksAvailable(lower) && !AsksHowItWorks(lower)
           && AsksUnused(lower)) ==> r == UnusedDays)
      && (r == Default <==> !AsksDaysLeft(lower) && !AsksExpiry(lower) && !AsksAvailable(lower)
                            && !AsksHowItWorks(lower) && !AsksUnused(lower))
  {
    var lower := Text.ToLower(message);
    if AsksDaysLeft(lower) then
      if membership.Some? then
        DaysRemaining(membership.value.totalDays - membership.value.usedDays, membership.value.totalDays,
                      PlanLabel(membership.value.planType))
      else NotActivated
    else if AsksExpiry(lower) then
      if membership.Some? && membership.value.endDate.Some? then ExpiresOn(membership.value.endDate.value)
      else ExpiryNotSet
    else if AsksAvailable(lower) then
      var inSeason := InSeasonOnly(destinations, currentMonth);
      if |inSeason| > 0 then
        assert inSeason[0] in inSeason;
        AvailableNow(currentMonth, Names(inSeason))
      else
        assert inSeason == [];
        NoneInSeason(currentMonth)
    else if AsksHowItWorks(lower) then HowItWorks
    else if AsksUnused(lower) then UnusedDays
    else Default
  }

  /** The rules ignore letter case: a message and its lower-cased form get
      the same reply. */
  lemma CaseInsensitive(message: string, membership: Option<Membership>,
                        destinations: seq<DestinationController.Destination>, currentMonth: string)
    ensures FallbackResponse(Text.ToLower(message), membership, destinations, currentMonth)
         == FallbackResponse(message, membership, destinations, currentMonth)
  {
    Text.ToLowerIdempotent(message);
  }

  /** The days reply and the membership page disagree exactly by the
      operator's extra days: the reply counts plan days minus used days only. */
  lemma DaysReplyIgnoresExtraDays(message: string, m: Membership,
                                  destinations: seq<DestinationController.Destination>, currentMonth: string)
    requires AsksDaysLeft(Text.ToLower(message))
    ensures var r := FallbackResponse(message, Some(m), destinations, currentMonth);
      && r.DaysRemaining?
      && r.remaining == MembershipController.RemainingDays(m) - m.customDaysAdded.GetOr(0)
  {
  }
}
