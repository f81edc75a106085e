/**
  The dashboard overview: headline spend over the records it is given (the
  store has already kept only the active ones), the verified count, and the
  upcoming-renewals panel.
*/
module Dashboard {
  import opened Types
  import opened Seqs
  import opened Text
  import opened Utils
  import opened DateSort

  /** Days ahead (inclusive) that count as an upcoming renewal. */
  const RenewalWindowDays: int := 7

  /** Renewals listed in the panel. */
  const ShownRenewalLimit: nat := 5

  /** The records as the spend helpers read them: price and stored cadence name. */
  function PricedItems(subs: seq<Subscription>): (r: seq<PricedItem>)
    ensures |r| == |subs|
    ensures forall i :: 0 <= i < |subs| ==> r[i] == PricedItem(subs[i].price, CadenceName(subs[i].cadence))
  {
    seq(|subs|, i requires 0 <= i < |subs| => PricedItem(subs[i].price, CadenceName(subs[i].cadence)))
  }

  /** Reference sum: each record's price times its cadence's monthly rate. */
  function SumMonthlyRates(subs: seq<Subscription>): real
    decreases |subs|
  {
    if |subs| == 0 then 0.0
    else subs[0].price * MonthlyRate(subs[0].cadence) + SumMonthlyRates(subs[1..])
  }

  lemma {:induction false} PricedItemsSum(subs: seq<Subscription>)
    ensures AllRecognised(PricedItems(subs))
    ensures SumNormalized(PricedItems(subs)) == SumMonthlyRates(subs)
    decreases |subs|
  {
    var items := PricedItems(subs);
    forall i | 0 <= i < |items|
      ensures ParseCadence(items[i].cadence).Some?
    {
      CadenceRoundTrip(subs[i].cadence);
    }
    if |subs| > 0 {
      PricedItemsSum(subs[1..]);
      assert items[1..] == PricedItems(subs[1..]);
      CadenceRoundTrip(subs[0].cadence);
    }
  }

  /**
    The headline monthly spend. Stored records always carry one of the five
    cadences, so no record is dropped by the unknown-cadence default.
  */
  function MonthlySpendOf(subs: seq<Subscription>): (r: real)
    ensures r == SumMonthlyRates(subs)
  {
    PricedItemsSum(subs);
    MonthlySpend(PricedItems(subs))
  }

  /** The annual figure under the monthly one: twelve times it, and the same as the annual helper's. */
  function AnnualSpendOf(subs: seq<Subscription>): (r: real)
    ensures r == 12.0 * SumMonthlyRates(subs)
    ensures r == AnnualSpend(PricedItems(subs))
  {
    MonthlySpendOf(subs) * 12.0
  }

  /** The renewal filter: billing no more than a week away, overdue records included. */
  function DueSoon(now: int): Subscription -> bool
  {
    (s: Subscription) => DaysUntil(s.nextBillDate, now) <= RenewalWindowDays
  }

  /** Being due soon is the same as billing no later than seven days after `now`. */
  lemma DueSoonIsDeadline(s: Subscription, now: int)
    ensures DueSoon(now)(s) <==> s.nextBillDate <= now + RenewalWindowDays * MsPerDay
  {
  }

  /**
    The renewals panel's list: every record billing within seven days,
    overdue ones included, earliest first.
  */
  function UpcomingRenewals(subs: seq<Subscription>, now: int): (r: seq<Subscription>)
    ensures SortedByDate(r)
    ensures multiset(r) == multiset(Filter(subs, DueSoon(now)))
    ensures forall x :: x in r <==> x in subs && x.nextBillDate <= now + RenewalWindowDays * MsPerDay
  {
    var due := Filter(subs, DueSoon(now));
    var r := SortByDate(due);
    UpcomingMembers(subs, now, r);
    r
  }

  lemma UpcomingMembers(subs: seq<Subscription>, now: int, r: seq<Subscription>)
    requires multiset(r) == multiset(Filter(subs, DueSoon(now)))
    ensures forall x :: x in r <==> x in subs && x.nextBillDate <= now + RenewalWindowDays * MsPerDay
  {
    var due := Filter(subs, DueSoon(now));
    FilterMembers(subs, DueSoon(now));
    forall x
      ensures x in r <==> x in subs && x.nextBillDate <= now + RenewalWindowDays * MsPerDay
    {
      assert x in r <==> x in multiset(r);
      assert x in due <==> x in multiset(due);
      DueSoonIsDeadline(x, now);
    }
  }

  /** Renewals billed on the same date appear in the order the store returned them. */
  lemma UpcomingRenewalsStable(subs: seq<Subscription>, now: int, d: int)
    ensures Filter(UpcomingRenewals(subs, now), OnDate(d)) == Filter(Filter(subs, DueSoon(now)), OnDate(d))
  {
    SortByDateStable(Filter(subs, DueSoon(now)), d);
  }

  /** A record billed earlier than a due record is due as well. */
  lemma DueSoonDownwardClosed(x: Subscription, y: Subscription, now: int)
    requires DueSoon(now)(x)
    requires y.nextBillDate <= x.nextBillDate
    ensures DueSoon(now)(y)
  {
    DaysUntilMonotone(y.nextBillDate, x.nextBillDate, now);
  }

  /**
    The part of the list the panel renders: its first five entries, which are
    never billed later than any entry left out.
  */
  function ShownRenewals(upcoming: seq<Subscription>): (r: seq<Subscription>)
    ensures r <= upcoming
    ensures |r| == if |upcoming| < ShownRenewalLimit then |upcoming| else ShownRenewalLimit
    ensures SortedByDate(upcoming) ==>
      forall i, j :: 0 <= i < |r| <= j < |upcoming| ==> r[i].nextBillDate <= upcoming[j].nextBillDate
  {
    if |upcoming| <= ShownRenewalLimit then upcoming else upcoming[..ShownRenewalLimit]
  }

  /** The relative-day caption: "Today", "Tomorrow", otherwise "In N days" (N may be negative). */
  function DaysLabel(days: int): (r: string)
    ensures days == 0 <==> r == "Today"
    ensures days == 1 <==> r == "Tomorrow"
    ensures days != 0 && days != 1 ==>
      |r| > 8 && r[..3] == "In " && r[|r| - 5..] == " days"
      && IsIntNumeral(r[3..|r| - 5]) && DecimalValue(r[3..|r| - 5]) == days
  {
    if days == 0 then "Today"
    else if days == 1 then "Tomorrow"
    else
      var numeral := IntToDecimal(days);
      var r := "In " + numeral + " days";
      assert r[3..|r| - 5] == numeral;
      IntToDecimalValue(days);
      r
  }

  /** The "In N days" caption prints N exactly as `${N}` does. */
  lemma DaysLabelNumeral(days: int)
    requires days != 0 && days != 1
    ensures DaysLabel(days) == "In " + IntToDecimal(days) + " days"
  {
    var r := DaysLabel(days);
    var numeral := r[3..|r| - 5];
    IntNumeralUnique(numeral, days);
    assert r == r[..3] + numeral + r[|r| - 5..];
  }

  /** Different day counts never share a caption. */
  lemma DaysLabelInjective(a: int, b: int)
    requires DaysLabel(a) == DaysLabel(b)
    ensures a == b
  {
    if a != 0 && a != 1 && b != 0 && b != 1 {
      var la := DaysLabel(a);
      assert DecimalValue(la[3..|la| - 5]) == a;
    }
  }

  /** The number of verified records, counted one record at a time. */
  function CountVerified(subs: seq<Subscription>): nat
    decreases |subs|
  {
    if |subs| == 0 then 0
    else (if subs[0].verified then 1 else 0) + CountVerified(subs[1..])
  }

  /** How many records have been verified: the length of the verified-only filter. */
  function VerifiedCount(subs: seq<Subscription>): (r: nat)
    ensures r == CountVerified(subs)
    ensures r <= |subs|
    ensures r == |subs| <==> forall i :: 0 <= i < |subs| ==> subs[i].verified
    ensures r == 0 <==> forall i :: 0 <= i < |subs| ==> !subs[i].verified
  {
    var isVerified := (s: Subscription) => s.verified;
    FilterKeepsAll(subs, isVerified);
    FilterKeepsNone(subs, isVerified);
    FilterCountsVerified(subs, isVerified);
    |Filter(subs, isVerified)|
  }

  lemma {:induction false} FilterCountsVerified(subs: seq<Subscription>, isVerified: Subscription -> bool)
    requires forall s :: isVerified(s) == s.verified
    ensures |Filter(subs, isVerified)| == CountVerified(subs)
    decreases |subs|
  {
    if |subs| > 0 {
      FilterCountsVerified(subs[1..], isVerified);
    }
  }

  /** The plural ending after a record count. */
  function PluralSuffix(count: int): (r: string)
    ensures r == "s" <==> count != 1
    ensures r == "" <==> count == 1
  {
    if count != 1 then "s" else ""
  }

  /** The four stat cards' figures. */
  datatype Stats = Stats(
    monthlySpend: real,
    annualSpend: real,
    activeCount: nat,
    verifiedCount: nat,
    upcomingCount: nat)

  /**
    The stat cards. The upcoming count covers every due record, overdue ones
    included, not only the five the panel lists.
  */
  function DashboardStats(subs: seq<Subscription>, now: int): (r: Stats)
    ensures r.annualSpend == 12.0 * r.monthlySpend
    ensures r.monthlySpend == SumMonthlyRates(subs)
    ensures r.activeCount == |subs|
    ensures r.verifiedCount == CountVerified(subs)
    ensures r.verifiedCount <= r.activeCount
    ensures r.upcomingCount <= r.activeCount
    ensures r.upcomingCount == |Filter(subs, DueSoon(now))|
  {
    var upcoming := UpcomingRenewals(subs, now);
    assert |upcoming| == |multiset(upcoming)|;
    Stats(MonthlySpendOf(subs), AnnualSpendOf(subs), |subs|, VerifiedCount(subs), |upcoming|)
  }
}
