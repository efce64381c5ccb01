/** The member-number allocator (`generateMembershipId` in
    backend/src/controllers/authController.ts): a counter per calendar year,
    created at 1 or advanced by 1, and the number written as the year followed
    by the counter left-padded with zeros to six digits. The current year is
    passed in. */
module MembershipIds {
  import Decimal
  import Persistence

  /** `${year}${counter.toString().padStart(6, '0')}`. */
  function FormatMembershipId(year: nat, counter: nat): string {
    Decimal.NatToString(year) + Decimal.PadStart(Decimal.NatToString(counter), 6, '0')
  }

  /** The counter value the upsert leaves for `year`: 1 for a year not seen
      before, one more than the stored value otherwise. */
  function NextCounter(counters: map<nat, nat>, year: nat): (c: nat)
    ensures year !in counters ==> c == 1
    ensures year in counters ==> c == counters[year] + 1
    ensures c >= 1
  {
    if year in counters then counters[year] + 1 else 1
  }

  /** For a four-digit year and a counter below one million the number has
      ten digits, begins with the year, and its last six digits read back as
      the counter; as a whole it reads as year * 10^6 + counter. */
  lemma MembershipIdShape(year: nat, counter: nat)
    requires 1000 <= year <= 9999 && counter < 1000000
    ensures var id := FormatMembershipId(year, counter);
      && |id| == 10
      && Decimal.AllDigits(id)
      && id[..4] == Decimal.NatToString(year)
      && Decimal.ParseDigits(id[..4]) == year
      && Decimal.ParseDigits(id[4..]) == counter
      && Decimal.ParseDigits(id) == year * 1000000 + counter
  {
    var y := Decimal.NatToString(year);
    var p := Decimal.PadStart(Decimal.NatToString(counter), 6, '0');
    var id := y + p;
    Decimal.Pow10Values();
    Decimal.NatToStringLength(year, 4);
    Decimal.ParseNatToString(year);
    Decimal.PaddedRoundTrip(counter, 6);
    assert id[..4] == y && id[4..] == p;
    Decimal.ParseAppend(y, p);
  }

  /** Numbers of different (year, counter) pairs differ, for every
      four-digit year and every counter: the first four characters give the
      year back and the rest give the counter back. */
  lemma MembershipIdInjective(y1: nat, c1: nat, y2: nat, c2: nat)
    requires 1000 <= y1 <= 9999 && 1000 <= y2 <= 9999
    requires FormatMembershipId(y1, c1) == FormatMembershipId(y2, c2)
    ensures y1 == y2 && c1 == c2
  {
    var id := FormatMembershipId(y1, c1);
    Decimal.Pow10Values();
    Decimal.NatToStringLength(y1, 4);
    Decimal.NatToStringLength(y2, 4);
    Decimal.ParseNatToString(y1);
    Decimal.ParseNatToString(y2);
    assert id[..4] == Decimal.NatToString(y1) == Decimal.NatToString(y2);
    Decimal.PaddedRoundTrip(c1, 6);
    Decimal.PaddedRoundTrip(c2, 6);
    assert id[4..] == Decimal.PadStart(Decimal.NatToString(c1), 6, '0')
                   == Decimal.PadStart(Decimal.NatToString(c2), 6, '0');
  }

  /** Within one year a larger counter gives a larger number, so the numbers
      handed out in a year are strictly increasing (up to the millionth). */
  lemma MembershipIdIncreasing(year: nat, c1: nat, c2: nat)
    requires 1000 <= year <= 9999 && c1 < c2 < 1000000
    ensures Decimal.ParseDigits(FormatMembershipId(year, c1)) < Decimal.ParseDigits(FormatMembershipId(year, c2))
    ensures FormatMembershipId(year, c1) != FormatMembershipId(year, c2)
  {
    MembershipIdShape(year, c1);
    MembershipIdShape(year, c2);
  }

  /** `generateMembershipId()` in year `year`: advances that year's counter
      and returns the number built from the new value; nothing else in the
      database changes. */
  method GenerateMembershipId(db: Persistence.Database, year: nat) returns (id: string)
    requires db.Valid()
    modifies db
    ensures db.Valid()
    ensures db.counters == old(db.counters)[year := NextCounter(old(db.counters), year)]
    ensures id == FormatMembershipId(year, db.counters[year])
    ensures db.users == old(db.users) && db.memberships == old(db.memberships)
    ensures db.plans == old(db.plans) && db.payments == old(db.payments)
  {
    var counter: nat;
    if year in db.counters {
      counter := db.counters[year] + 1;
    } else {
      counter := 1;
    }
    db.counters := db.counters[year := counter];
    var padded := Decimal.PadStart(Decimal.NatToString(counter), 6, '0');
    id := Decimal.NatToString(year) + padded;
  }

  /** Two allocations in the same year hand out different, increasing numbers. */
  lemma SuccessiveAllocationsIncrease(counters: map<nat, nat>, year: nat)
    requires 1000 <= year <= 9999
    requires NextCounter(counters, year) + 1 < 1000000
    ensures var c1 := NextCounter(counters, year);
      var c2 := NextCounter(counters[year := c1], year);
      && c2 == c1 + 1
      && Decimal.ParseDigits(FormatMembershipId(year, c1)) < Decimal.ParseDigits(FormatMembershipId(year, c2))
  {
    var c1 := NextCounter(counters, year);
    MembershipIdIncreasing(year, c1, c1 + 1);
  }
}
