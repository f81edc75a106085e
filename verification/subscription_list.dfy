/**
  The subscription list page: the search box and status selector over the
  fetched records, the per-row "upcoming" highlight with its day caption, and
  the empty-state text.
*/
module SubscriptionList {
  import opened Wrappers
  import opened Types
  import opened Seqs
  import opened Text
  import opened Utils
  import opened Dashboard

  /** The selector value that applies no status filter. */
  const AllStatuses: string := "all"

  /** Case-insensitive search hit on the service name or a present plan name. */
  predicate MatchesQuery(s: Subscription, query: string)
  {
    var q := LowerCase(query);
    Contains(LowerCase(s.serviceName), q)
    || (s.planName.Some? && Contains(LowerCase(s.planName.value), q))
  }

  function MatchesSearch(query: string): Subscription -> bool
  {
    (s: Subscription) => MatchesQuery(s, query)
  }

  function HasStatus(status: string): Subscription -> bool
  {
    (s: Subscription) => StatusName(s.status) == status
  }

  /** Both controls at once: an empty query or "all" lets every record through. */
  function Selection(query: string, status: string): Subscription -> bool
  {
    (s: Subscription) =>
      (query == "" || MatchesQuery(s, query)) && (status == AllStatuses || StatusName(s.status) == status)
  }

  /** What the page promises to show: records whose name or plan contains the query, with the chosen status. */
  ghost predicate Shown(s: Subscription, query: string, status: string)
  {
    var q := LowerCase(query);
    && (query == ""
        || IsSubstring(q, LowerCase(s.serviceName))
        || (s.planName.Some? && IsSubstring(q, LowerCase(s.planName.value))))
    && (status == AllStatuses || StatusName(s.status) == status)
  }

  lemma SelectionMeansShown(s: Subscription, query: string, status: string)
    ensures Selection(query, status)(s) <==> Shown(s, query, status)
  {
    var q := LowerCase(query);
    ContainsIsSubstring(LowerCase(s.serviceName), q);
    if s.planName.Some? {
      ContainsIsSubstring(LowerCase(s.planName.value), q);
    }
  }

  /**
    `filterSubscriptions`: the search filter when the query is non-empty, then
    the status filter unless "all" is selected.
  */
  function FilterSubscriptions(subs: seq<Subscription>, query: string, status: string): (r: seq<Subscription>)
    ensures r == Filter(subs, Selection(query, status))
    ensures query == "" && status == AllStatuses ==> r == subs
    ensures IsSubsequence(r, subs)
    ensures forall x :: x in r <==> x in subs && Shown(x, query, status)
  {
    var searched := if query != "" then Filter(subs, MatchesSearch(query)) else subs;
    var r := if status != AllStatuses then Filter(searched, HasStatus(status)) else searched;
    SinglePass(subs, query, status);
    FilterIsSubsequence(subs, Selection(query, status));
    FilterMembers(subs, Selection(query, status));
    forall x
      ensures Selection(query, status)(x) <==> Shown(x, query, status)
    {
      SelectionMeansShown(x, query, status);
    }
    r
  }

  /** The page's two successive filters keep exactly what one pass with `Selection` keeps. */
  lemma SinglePass(subs: seq<Subscription>, query: string, status: string)
    ensures (var searched := if query != "" then Filter(subs, MatchesSearch(query)) else subs;
             if status != AllStatuses then Filter(searched, HasStatus(status)) else searched)
            == Filter(subs, Selection(query, status))
  {
    var sel := Selection(query, status);
    if query != "" && status != AllStatuses {
      FilterFilter(subs, MatchesSearch(query), HasStatus(status), sel);
    } else if query != "" {
      FilterExtensional(subs, MatchesSearch(query), sel);
    } else if status != AllStatuses {
      FilterExtensional(subs, HasStatus(status), sel);
    } else {
      FilterKeepsAll(subs, sel);
    }
  }

  /** Filtering an already filtered list with the same controls changes nothing. */
  lemma FilterSubscriptionsIdempotent(subs: seq<Subscription>, query: string, status: string)
    ensures FilterSubscriptions(FilterSubscriptions(subs, query, status), query, status)
            == FilterSubscriptions(subs, query, status)
  {
    FilterIdempotent(subs, Selection(query, status));
  }

  /** A record without a plan name is found only through its service name. */
  lemma MissingPlanNeverMatches(s: Subscription, query: string)
    requires s.planName.None?
    ensures MatchesQuery(s, query) <==> IsSubstring(LowerCase(query), LowerCase(s.serviceName))
  {
    ContainsIsSubstring(LowerCase(s.serviceName), LowerCase(query));
  }

  /**
    The row highlight: billing today or within the next seven days. Unlike the
    dashboard's filter, overdue records are not highlighted.
  */
  predicate IsUpcoming(s: Subscription, now: int)
  {
    var days := DaysUntil(s.nextBillDate, now);
    days <= RenewalWindowDays && days >= 0
  }

  /** The highlight in milliseconds: later than one day ago, at most seven days ahead. */
  lemma IsUpcomingWindow(s: Subscription, now: int)
    ensures IsUpcoming(s, now) <==> now - MsPerDay < s.nextBillDate <= now + RenewalWindowDays * MsPerDay
  {
  }

  /** Every highlighted row would also be in the dashboard's renewal list. */
  lemma UpcomingIsDueSoon(s: Subscription, now: int)
    requires IsUpcoming(s, now)
    ensures DueSoon(now)(s)
  {
  }

  /** A record overdue by a day or more is listed by the dashboard but not highlighted here. */
  lemma OverdueOnlyOnDashboard(s: Subscription, now: int)
    requires s.nextBillDate <= now - MsPerDay
    ensures !IsUpcoming(s, now)
    ensures DueSoon(now)(s)
  {
    DaysUntilSign(s.nextBillDate, now);
  }

  /** The caption beside a highlighted row, and none for the rest. */
  function UpcomingCaption(s: Subscription, now: int): (r: Option<string>)
    ensures r.Some? <==> IsUpcoming(s, now)
    ensures var days := DaysUntil(s.nextBillDate, now);
      r.Some? ==>
        (r.value == "Today" <==> days == 0)
        && (r.value == "Tomorrow" <==> days == 1)
        && (2 <= days ==> r.value == "In " + IntToDecimal(days) + " days" && days <= RenewalWindowDays)
  {
    var days := DaysUntil(s.nextBillDate, now);
    if !IsUpcoming(s, now) then None
    else if days < 2 then Some(DaysLabel(days))
    else
      DaysLabelNumeral(days);
      Some(DaysLabel(days))
  }

  /** The three records of the worked example: due in 3 days, in 10 days, 2 days ago. */
  lemma UpcomingExample(a: Subscription, b: Subscription, c: Subscription, now: int)
    requires a.nextBillDate == now + 3 * MsPerDay
    requires b.nextBillDate == now + 10 * MsPerDay
    requires c.nextBillDate == now - 2 * MsPerDay
    ensures Filter([a, b, c], (s: Subscription) => IsUpcoming(s, now)) == [a]
    ensures Filter([a, b, c], DueSoon(now)) == [a, c]
  {
    DaysUntilWholeDays(now, 3);
    DaysUntilWholeDays(now, 10);
    DaysUntilWholeDays(now, -2);
    var s := [a, b, c];
    assert s[1..] == [b, c] && [b, c][1..] == [c] && [c][1..] == [];
    var flagged := (s: Subscription) => IsUpcoming(s, now);
    assert flagged(a) && !flagged(b) && !flagged(c);
    assert Filter([c], flagged) == [];
    assert Filter([b, c], flagged) == [];
    var due := DueSoon(now);
    assert due(a) && !due(b) && due(c);
    assert Filter([c], due) == [c];
    assert Filter([b, c], due) == [c];
  }

  /** What the page shows when nothing passes the filters. */
  datatype EmptyState = EmptyState(title: string, hint: string, offersAdd: bool)

  /**
    The empty-state card: "not found" wording while a query or status filter
    is active, the first-use wording and an add button otherwise.
  */
  function EmptyStateFor(query: string, status: string): (r: EmptyState)
    ensures r.title == "No subscriptions found" <==> query != "" || status != AllStatuses
    ensures r.title == "No subscriptions yet" <==> query == "" && status == AllStatuses
    ensures r.offersAdd <==> r.title == "No subscriptions yet"
  {
    if query != "" || status != AllStatuses then
      EmptyState("No subscriptions found", "Try adjusting your search or filters", false)
    else
      EmptyState("No subscriptions yet", "Add your first subscription to get started", true)
  }
}
