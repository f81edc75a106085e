# Schnei subscription dashboard — verified model of its pure core

Schnei tracks recurring payments. Each subscription record has a service name, an optional plan name, a price, a currency, a billing cadence, a next billing date, a status and a `verified` flag. The dashboard turns these records into a few figures:

- monthly and annual spend;
- the number of verified records;
- a list of upcoming renewals, labelled "Today", "Tomorrow" or "In N days";
- a searchable, status-filtered list of all records.

An add form builds new records.

This project models the deterministic logic behind those views in Dafny and proves its properties:

- **`Types`** — the `subscriptions` row. The closed `Cadence` and `Status` enumerations are datatypes. The record's `next_bill_date` is the millisecond timestamp that the stored date denotes.
- **`Utils`** — the helpers of `src/lib/utils.ts`:
  - cadence normalisation (`NormalizeToMonthly`);
  - the spend fold (`MonthlySpend`, `AnnualSpend`);
  - the ceiling day difference (`DaysUntil`), with the clock reading passed in as `now`;
  - `Truncate` and `GetInitials`.
- **`DateSort`** — the dashboard's sort by next billing date. JavaScript's `sort` is stable, so its result is fixed by the comparator. `StableSortIsSortByDate` proves that every date-sorted list keeping same-date records in input order equals the model's `SortByDate`.
- **`Dashboard`** — the overview page:
  - headline spend;
  - the upcoming-renewals filter, sort and top-5 slice;
  - the relative-day caption;
  - the verified count and the plural suffix.
- **`SubscriptionList`** — the list page:
  - the search and status filter;
  - the stricter "upcoming" highlight;
  - the empty-state text.
- **`AddForm`** — the add form:
  - its initial state;
  - `handleChange` and quick-add;
  - the payload that is posted.
- **`Layout`** — the sidebar's active-entry test and the avatar initials fallback.
- **`Seqs`, `Text`, `Wrappers`** — the supporting pieces:
  - order-preserving filter and map, and the subsequence relation;
  - ASCII case mapping, substring search, `split(' ')` and integer printing;
  - `Option` for `null`.

Prices are `real`, so the arithmetic is exact. Timestamps are unbounded integers.

## Three behaviours of the code worth knowing

- **Unrecognised cadences.** `calculateMonthlySpend` adds 0 for a record whose cadence it does not recognise, while `normalizeToMonthly` returns the price unchanged (`src/lib/utils.ts:43-44` against `65-66`). So the monthly spend is not the sum of the records' normalised values. `Utils.MonthlySpend` states the exact gap: monthly spend equals the sum of normalised values minus the prices with an unrecognised cadence. `Utils.UnrecognisedCadenceDiverges` exhibits the gap on one record.
- **Overdue records.** The two pages treat overdue records differently:
  - the dashboard's renewal filter has no lower bound, so an overdue record is listed as "In -3 days";
  - the list page's highlight requires `0 <= daysUntil <= 7`, so it does not highlight overdue records.

  `SubscriptionList.OverdueOnlyOnDashboard` states this difference.
- **Time of day.** The day count is the ceiling of the raw millisecond difference from the current time, with no truncation to midnight, and `Utils.DaysUntil` models that. A target within the last 24 hours therefore reads 0 ("Today"). A target is negative only once it is a full day or more in the past (`Utils.DaysUntilSign`).

## Model

| member | source | states |
|---|---|---|
| Types.ParseCadence | src/types/database.types.ts:93 | a stored cadence string is read as the cadence whose name it is, and a string naming no cadence is rejected |
| Types.CadenceRoundTrip | src/types/database.types.ts:93 | every one of the five cadences reads back from its stored name |
| Types.StatusNameInjective | src/types/database.types.ts:95 | two statuses have the same stored name exactly when they are the same status |
| Utils.NormalizeToMonthly | src/lib/utils.ts:53-67 | the monthly equivalent is the price times 30, 4, 1, 1/3 or 1/12 for the five cadences, is the price itself for any other cadence, and is non-negative for a non-negative price |
| Utils.MonthlyContribution | src/lib/utils.ts:31-46 | one record adds its monthly equivalent to the running total for a known cadence and adds nothing otherwise |
| Utils.SpendFoldSum | src/lib/utils.ts:31-46 | the reduce from any starting total adds the sum of monthly equivalents net of unrecognised prices to that total |
| Utils.MonthlySpend | src/lib/utils.ts:30-47 | the fold equals the sum of monthly equivalents minus the prices with an unrecognised cadence; it is exactly that sum when all cadences are known, 0 for no records, and non-negative for non-negative prices |
| Utils.MonthlySpendConcat | src/lib/utils.ts:30-47 | the spend of two lists together is the sum of their spends |
| Utils.UnrecognisedCadenceDiverges | src/lib/utils.ts:43-66 | a record billed "biweekly" at 5 is worth 5 a month to the normaliser and 0 to the spend fold |
| Utils.AnnualSpend | src/lib/utils.ts:49-51 | annual spend is twelve times the sum of monthly equivalents net of unrecognised prices, and non-negative for non-negative prices |
| Utils.DaysUntil | src/lib/utils.ts:23-28 | the day count r is the ceiling of the difference in days: (r-1) days < target - now <= r days |
| Utils.DaysUntilUnique | src/lib/utils.ts:23-28 | any k satisfying the ceiling bounds is the day count |
| Utils.DaysUntilWholeDays | src/lib/utils.ts:23-28 | a target exactly k days after now is k days away, for every integer k |
| Utils.DaysUntilNow | src/lib/utils.ts:23-28 | a target equal to now is 0 days away |
| Utils.DaysUntilSign | src/lib/utils.ts:23-28 | the count is negative exactly when the target is a full day or more in the past, and positive exactly when the target is after now |
| Utils.DaysUntilMonotone | src/lib/utils.ts:23-28 | a later target is never fewer days away |
| Utils.Truncate | src/lib/utils.ts:70-73 | a string no longer than the limit is returned unchanged; a longer one becomes its first `length` characters (none for a negative limit) followed by "..." |
| Utils.TruncateKeepsPrefix | src/lib/utils.ts:70-73 | for a non-negative limit n the result has at most n+3 characters, and the text before the ellipsis is a prefix of the input |
| Utils.JoinFirstCharsOfNonEmpty | src/lib/utils.ts:78-79 | joining the words' first characters yields one character per non-empty word, in word order |
| Utils.GetInitials | src/lib/utils.ts:75-82 | the initials are min(2, number of non-empty words) characters, each the upper-cased first character of the corresponding non-empty space-separated word, in order |
| Utils.InitialsExample | src/lib/utils.ts:75-82 | "al  bo cy" gives "AB": the empty word adds nothing and the third word is cut off |
| Utils.InitialsOfOneWord | src/lib/utils.ts:75-82 | a non-empty text without spaces gives exactly its first character, upper-cased |
| Text.JoinSplit | src/lib/utils.ts:77 | splitting on spaces loses nothing: joining the pieces with spaces gives back the input |
| Text.SplitPiecesHaveNoSpace | src/lib/utils.ts:77 | no piece of the split contains a space |
| Text.Split | src/lib/utils.ts:77 | `split(' ')` always yields at least one piece |
| Text.Contains | src/app/dashboard/subscriptions/page.tsx:56-57 | `includes`: the query is a prefix of the text or of one of its suffixes (its meaning is stated by Text.ContainsIsSubstring) |
| Text.ContainsIsSubstring | src/app/dashboard/subscriptions/page.tsx:56-57 | the search's `includes` test holds exactly when the query occurs at some position of the text |
| Text.IntToDecimalValue | src/app/dashboard/page.tsx:193 | the numeral printed into "In N days" reads back as N, negative numbers included |
| Text.IntToDecimal | src/app/dashboard/page.tsx:193 | `${n}` of an integer is a canonical numeral: a leading '-' exactly for a negative n, then digits with no leading zero unless the numeral is "0" |
| Text.IntNumeralUnique | src/app/dashboard/page.tsx:193 | every canonical numeral whose value is n is the printed numeral of n, so printing is determined by canonical form and value |
| DateSort.InsertPermutes | src/app/dashboard/page.tsx:52 | inserting a record adds exactly that record |
| DateSort.InsertSorted | src/app/dashboard/page.tsx:52 | inserting into a date-sorted list keeps it date-sorted |
| DateSort.InsertStable | src/app/dashboard/page.tsx:52 | an inserted record lands after every record with the same date |
| DateSort.SortByDate | src/app/dashboard/page.tsx:52 | the result is ascending by next billing date and a permutation of the input |
| DateSort.SortByDateStable | src/app/dashboard/page.tsx:52 | for every date, the records on that date keep their input order |
| DateSort.StableSortUnique | src/app/dashboard/page.tsx:52 | two date-sorted lists with the same records in the same order on every date are equal |
| DateSort.StableSortIsSortByDate | src/app/dashboard/page.tsx:52 | every date-sorted list that keeps each date's input order is exactly the model's sort of the input |
| Dashboard.PricedItemsSum | src/app/dashboard/page.tsx:48 | stored records always have a recognised cadence, and their summed monthly equivalents equal the sum of price times monthly rate |
| Dashboard.MonthlySpendOf | src/app/dashboard/page.tsx:48 | the headline monthly spend is the sum over the records of price times the cadence's monthly rate |
| Dashboard.AnnualSpendOf | src/app/dashboard/page.tsx:49 | the annual figure is twelve times that sum and agrees with the annual-spend helper |
| Dashboard.DueSoonIsDeadline | src/app/dashboard/page.tsx:51 | a record passes the renewal filter exactly when it bills no later than seven days after now |
| Dashboard.DueSoon | src/app/dashboard/page.tsx:51 | the renewal filter keeps a record exactly when its day count is at most seven, overdue records included (its deadline form is Dashboard.DueSoonIsDeadline) |
| Dashboard.UpcomingRenewals | src/app/dashboard/page.tsx:50-52 | the renewal list is sorted by date, is a permutation of the records passing the filter, and holds exactly the records billing no later than now plus seven days, overdue ones included |
| Dashboard.UpcomingRenewalsStable | src/app/dashboard/page.tsx:52 | renewals on the same date appear in the order the store returned them |
| Dashboard.DueSoonDownwardClosed | src/app/dashboard/page.tsx:51 | any record billing no later than a due record is due as well |
| Dashboard.ShownRenewals | src/app/dashboard/page.tsx:182 | the panel shows the first min(5, n) renewals, and none of them bills later than a renewal left out |
| Dashboard.DaysLabel | src/app/dashboard/page.tsx:193 | the caption is "Today" exactly for 0 and "Tomorrow" exactly for 1; otherwise it reads "In N days", where N is a canonical numeral (no leading zero, '-' only before a non-zero value) that reads back as the day count, negative ones included |
| Dashboard.DaysLabelNumeral | src/app/dashboard/page.tsx:193 | for any count other than 0 and 1 the caption is "In ", then exactly the numeral that `${N}` prints, then " days" |
| Dashboard.DaysLabelInjective | src/app/dashboard/page.tsx:193 | different day counts never get the same caption |
| Dashboard.VerifiedCount | src/app/dashboard/page.tsx:66 | the verified count is the number of records whose `verified` flag is set, counted one by one; so it is at most the record count, equals it exactly when all records are verified, and is 0 exactly when none is |
| Dashboard.PluralSuffix | src/app/dashboard/page.tsx:235 | the suffix is "s" exactly when the count is not 1, and empty exactly when it is 1 |
| Dashboard.DashboardStats | src/app/dashboard/page.tsx:48-87 | annual is twelve times monthly spend, monthly spend is the rate-weighted sum, the verified count is the number of verified records, and the upcoming count is the number of due records, not only the five shown; neither count exceeds the record count |
| SubscriptionList.SelectionMeansShown | src/app/dashboard/subscriptions/page.tsx:54-63 | the combined test accepts a record exactly when an empty query or a substring hit on the lower-cased name or present plan, and "all" or an equal status, hold |
| SubscriptionList.MatchesQuery | src/app/dashboard/subscriptions/page.tsx:55-58 | the search keeps a record when the lower-cased query occurs in its lower-cased service name or in its present plan name |
| SubscriptionList.Selection | src/app/dashboard/subscriptions/page.tsx:54-63 | the combined test of the search (skipped for an empty query) and the status filter (skipped for "all") |
| SubscriptionList.FilterSubscriptions | src/app/dashboard/subscriptions/page.tsx:51-66 | the filtered list is the input when the query is empty and the status is "all"; it is an order-preserving subsequence of the input; it holds exactly the records matching the query (name or non-null plan) and the status |
| SubscriptionList.SinglePass | src/app/dashboard/subscriptions/page.tsx:51-66 | the search filter followed by the status filter keeps exactly what one pass testing both keeps |
| SubscriptionList.FilterSubscriptionsIdempotent | src/app/dashboard/subscriptions/page.tsx:51-66 | filtering an already filtered list with the same query and status changes nothing |
| SubscriptionList.MissingPlanNeverMatches | src/app/dashboard/subscriptions/page.tsx:57 | a record with a null plan name matches a query only through its service name |
| SubscriptionList.IsUpcomingWindow | src/app/dashboard/subscriptions/page.tsx:162-163 | a row is highlighted exactly when it bills later than one day ago and at most seven days ahead |
| SubscriptionList.IsUpcoming | src/app/dashboard/subscriptions/page.tsx:162-163 | a row is highlighted when its day count is between 0 and 7 inclusive (its window in milliseconds is SubscriptionList.IsUpcomingWindow) |
| SubscriptionList.UpcomingIsDueSoon | src/app/dashboard/subscriptions/page.tsx:163 | every highlighted row also passes the dashboard's renewal filter |
| SubscriptionList.OverdueOnlyOnDashboard | src/app/dashboard/subscriptions/page.tsx:163 | a record overdue by a day or more is not highlighted here but is listed by the dashboard |
| SubscriptionList.UpcomingCaption | src/app/dashboard/subscriptions/page.tsx:204-206 | a caption is shown exactly for highlighted rows; it is "Today" exactly for 0 days, "Tomorrow" exactly for 1 day, and otherwise "In N days" with N the day count (2 to 7) printed as `${N}` prints it |
| SubscriptionList.UpcomingExample | src/app/dashboard/subscriptions/page.tsx:162-163 | of records due in 3 days, 10 days and 2 days ago, only the first is highlighted, while the dashboard keeps the first and the third |
| SubscriptionList.EmptyStateFor | src/app/dashboard/subscriptions/page.tsx:145-156 | the empty state says "No subscriptions found" exactly when a query or status filter is active, and "No subscriptions yet" with an add button otherwise |
| AddForm.InputNameInjective | src/app/dashboard/subscriptions/add/page.tsx:71-76 | each input's name addresses exactly one field of the form state |
| AddForm.InitialForm | src/app/dashboard/subscriptions/add/page.tsx:18-27 | the first form has currency "USD", cadence "monthly" and every other field empty |
| AddForm.HandleChange | src/app/dashboard/subscriptions/add/page.tsx:71-76 | the changed field takes the new value and every other field keeps its value |
| AddForm.HandleChangeOverwrites | src/app/dashboard/subscriptions/add/page.tsx:71-76 | of two edits to one field, only the last survives |
| AddForm.HandleChangeCommutes | src/app/dashboard/subscriptions/add/page.tsx:71-76 | edits to two different fields give the same form in either order |
| AddForm.HandleChangeUnchanged | src/app/dashboard/subscriptions/add/page.tsx:71-76 | setting a field to the value it already holds leaves the form unchanged |
| AddForm.CadenceChoicesAreCadences | src/app/dashboard/subscriptions/add/page.tsx:241-245 | a string is a billing-period option exactly when it names one of the five schema cadences |
| AddForm.CadenceChoicesCoverEnumeration | src/app/dashboard/subscriptions/add/page.tsx:241-245 | every cadence has an option, and there are exactly five options |
| AddForm.PopularCategoriesSelectable | src/app/dashboard/subscriptions/add/page.tsx:78-87 | every quick-add service's category is one the category selector offers |
| AddForm.QuickAdd | src/app/dashboard/subscriptions/add/page.tsx:115-121 | quick add sets the service name and category from the chosen service and leaves every other field as it was |
| AddForm.QuickAddIsTwoChanges | src/app/dashboard/subscriptions/add/page.tsx:115-121 | a quick add equals typing the service name and then choosing the category |
| AddForm.CadenceSelectedInvariant | src/app/dashboard/subscriptions/add/page.tsx:233-246 | the billing period holds one of the five cadences initially and after every edit made through its selector or to another field, and after a quick add |
| AddForm.OrNull | src/app/dashboard/subscriptions/add/page.tsx:44 | empty text becomes null and any other text, spaces-only text included, is passed through unchanged |
| AddForm.BuildPayload | src/app/dashboard/subscriptions/add/page.tsx:42-53 | the payload is active and unverified; service name, currency, cadence and date are copied verbatim; plan, category and notes are null exactly when empty; a selected cadence is a recognised one |
| AddForm.PayloadKeepsForm | src/app/dashboard/subscriptions/add/page.tsx:42-53 | every input except the price text can be recovered from the payload |
| Layout.IsActiveAtSegmentBoundary | src/app/dashboard/layout.tsx:92 | an entry is active exactly when the path equals its href, or continues it with '/' right after the href |
| Layout.IsActive | src/app/dashboard/layout.tsx:92 | an entry is active when the path equals its href or starts with its href followed by '/'; with no path it is never active |
| Layout.NoPathNoHighlight | src/app/dashboard/layout.tsx:92 | a missing pathname activates no entry |
| Layout.BarePrefixNotActive | src/app/dashboard/layout.tsx:92 | "/dashboard/subscriptionsX" does not activate "/dashboard/subscriptions" but does activate "/dashboard" |
| Layout.AncestorActive | src/app/dashboard/layout.tsx:92 | whenever an entry is active, every entry whose href is a path ancestor of it is active too |
| Layout.ActiveItems | src/app/dashboard/layout.tsx:91-92 | a sidebar entry's name is in the list exactly when that entry is active on the path; the names appear in sidebar order; none appear when the pathname is missing |
| Layout.AddPageHighlights | src/app/dashboard/layout.tsx:22-27 | on the add page the Dashboard and Subscriptions entries are active and the other two are not |
| Layout.NestedRouteExample | src/app/dashboard/layout.tsx:22-27 | the add page activates exactly "Dashboard" and "Subscriptions", in sidebar order |
| Layout.AvatarSource | src/app/dashboard/layout.tsx:127 | the avatar text is the full name if non-empty, else the e-mail if non-empty, else "U" |
| Layout.AvatarInitials | src/app/dashboard/layout.tsx:127 | the avatar shows at most two characters: the initials of the full name when it is non-empty, else the initials of the e-mail when that is non-empty (its first character upper-cased when it has no space), else "U" |

## Left out

- Data-store queries, authentication and deletes are external calls, so they are not modelled. Two filters the store applies before the pages see the records are also left to it:
  - the ascending-date ordering on the list page (`src/app/dashboard/subscriptions/page.tsx:39`);
  - the active-only filter on the dashboard (`src/app/dashboard/page.tsx:37`).

  The models take whatever records the store returned.
- The POST request, toasts, navigation, the confirm dialog, loading flags and React state and effects are I/O or UI plumbing. Only the state transitions are modelled, as pure functions.
- The analytics wrapper, the `cn` class merger and the button component are external SDKs or styling. The landing page and the root layout are static markup.
- `formatCurrency` and `formatDate` depend on locale formatting and are not modelled.
- Parsing a date string, time zones, and `parseFloat` of the price text are not modelled. Dates enter as millisecond timestamps. The parsed price is a parameter of `AddForm.BuildPayload`.
- Utils.NormalizeToMonthly: uses exact `real` arithmetic, not IEEE-754 doubles, so rounding in `price / 3` and similar is not reproduced.
- Utils.DaysUntil: divides integers exactly. The floating-point division before `Math.ceil` and invalid (`NaN`) dates are not modelled.
- Utils.GetInitials: upper-cases ASCII letters only. Full Unicode case mapping, which can lengthen a string (for example "ß" to "SS"), is not modelled. A character is a Unicode scalar value here, so a character outside the Basic Multilingual Plane is one character in the model. JavaScript stores it as two UTF-16 code units, and `n[0]` there yields a lone surrogate.
- Utils.Truncate: counts Unicode scalar values, not UTF-16 code units. JavaScript's `length` and `substring` count code units, so a text with characters outside the Basic Multilingual Plane is cut at a different place there, possibly between the two halves of a surrogate pair.
- SubscriptionList.FilterSubscriptions: lower-cases ASCII letters only. Full Unicode case folding is not modelled.
- AddForm.HandleChange: takes one of the form's eight fields. An event from an input with another `name` would add a new key in JavaScript, but no such input exists.
- The status badge colours, the verified badge, the welcome card, the static insight cards and the "User" display-name fallback (`src/app/dashboard/layout.tsx:131`) are presentation only and are not modelled.
