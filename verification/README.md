# Admin console view models, in Dafny

This project models the view-model logic of a small client-side admin console. The console has a login gate and three pages: a subscriptions table, a dashboard and a payments table. Every piece is a pure function over immutable records. The proofs cover what each piece promises.

- **Records** (`records.dfy`): `Subscription` and `Payment`, and the closed three-value `Plan`.
- **Subscriptions table** (`subscriptions_page.dfy`):
  - the activation toggle;
  - the plan, status and free-text filter;
  - the single-key sort, where the "uploads used" column sorts on uploads left (`totalUploads - uploadsUsed`);
  - the header sort toggle.
- **Payments table** (`payment_details_page.dfy`): the same filter, sort and toggle, with a simpler predicate and a direct comparator.
- **Shared sort toggle** (`sort_config.dfy`): `requestSort` and `getSortDirection`, which both pages copy word for word.
- **Sorting** (`stable_sort.dfy`, `ordering.dfy`):
  - `Array.prototype.sort` is modelled as an insertion sort.
  - It is proved sorted, a permutation and stable.
  - It is proved to be the *only* sorted, stable permutation. So any sort engine that follows ECMA-262 (stable since the 2019 edition) gives the same table.
  - Sort values follow JavaScript's `<`: numbers by value, strings lexicographically, `false < true`.
  - Descending order is not ascending order reversed. Rows with equal values keep their filtered order in both directions.
- **Strings and filtering** (`strings.dfy`, `seqs.dfy`):
  - `toLowerCase` is modelled as ASCII lower-casing.
  - `includes` is a left-to-right scan, proved equal to "occurs at some offset".
  - `filter` is proved to give a subsequence with the exact multiplicities.
- **Dashboard** (`dashboard.dfy`): the revenue sum, the active and total user counts, and the plan histogram. The `reduce` loops are proved equal to recursive reference definitions.
- **Column visibility** (`column_filter.dfy`): the set update that refuses to hide the last visible column when column keys are distinct.
- **Login form** (`login_page.dfy`): the check against the demo credentials, and the "remember me" cache. The browser store is a `map<string, string>`.
- **Navigation shell** (`app.dfy`):
  - state is the logged-in flag and the page id;
  - transitions are login, logout and navigate;
  - a rule picks which component is rendered.

In four places the code behaves differently from what its UI suggests, and the model follows the code:

- The page id and the two filter drop-downs are free strings (`useState<string>`), not closed enumerations. An unknown page id renders nothing. An unknown filter value keeps nothing.
- A successful login does not clear an earlier "Invalid username or password." message. `LoginPage.HandleLogin` leaves the form untouched on success.
- A failed login never touches the store, whether or not "remember me" is ticked.
- Both login fields are `required`, so an empty field blocks the submit. The handler never sees that case and no error message appears (`LoginPage.Submit`).

## Model

| member | source | states |
|---|---|---|
| Strings.ToLower | components/SubscriptionsPage.tsx:101 | lower-casing keeps the length and changes only capitals; each capital becomes its own lower-case letter (code point plus 32), so no upper-case ASCII letter remains |
| Strings.ToLowerIdempotent | components/SubscriptionsPage.tsx:101 | lower-casing an already lower-cased string changes nothing |
| Strings.ToLowerCaseInsensitive | components/SubscriptionsPage.tsx:101 | two strings lower-case to the same string exactly when they differ at most in the case of their ASCII letters |
| Strings.IncludesIffOccurs | components/SubscriptionsPage.tsx:107-110 | `includes` holds exactly when the query occurs at some offset of the string |
| Strings.ActiveInInactive | components/SubscriptionsPage.tsx:106-110 | "active" is a substring of "inactive" |
| Ordering.LessStrictTotalOrder | components/SubscriptionsPage.tsx:129-130 | `<` on sort values (numbers, strings by code unit, booleans) is irreflexive, asymmetric, transitive and total |
| Ordering.Compare | components/SubscriptionsPage.tsx:122-131 | the three-way comparison is -1, 0 or 1; it is 0 exactly for equal values and negative exactly when `a < b` |
| Ordering.InOrderTotalPreorder | components/SubscriptionsPage.tsx:133 | the directed comparison is a total preorder in either direction, and equivalent values are equal |
| Seqs.Filter | components/SubscriptionsPage.tsx:88 | `filter` gives a subsequence of its input; each kept element appears as often as in the input, and no other element appears |
| Seqs.FilterKeepsLengthIffAllKept | components/DashboardPage.tsx:32 | the filtered length equals the input length exactly when every element passes |
| Seqs.FilterEmptyIffNoneKept | components/DashboardPage.tsx:32 | the filtered list is empty exactly when no element passes |
| StableSort.Insert | components/SubscriptionsPage.tsx:118 | inserting adds exactly one element and keeps the others |
| StableSort.Sort | components/SubscriptionsPage.tsx:116-118 | the sort returns a permutation of its input |
| StableSort.SortIsStableSort | components/SubscriptionsPage.tsx:118-134 | the sort result is ordered under the directed comparison, a permutation, and keeps equal-valued elements in input order |
| StableSort.StableSortUnique | components/SubscriptionsPage.tsx:118-134 | any two sorted, stable permutations of the same input are equal |
| StableSort.SortIdempotent | components/SubscriptionsPage.tsx:115-137 | sorting an already sorted result again on the same key and direction changes nothing |
| StableSort.SortOfSorted | components/SubscriptionsPage.tsx:115-137 | a list already in order is returned unchanged |
| SortConfig.RequestSort | components/SubscriptionsPage.tsx:139-145 | the new key is the clicked key; the direction is descending exactly when the config was (same key, ascending) |
| SortConfig.GetSortDirection | components/SubscriptionsPage.tsx:147-152 | a direction is reported exactly for the current sort key, and it is the configured one; otherwise null |
| SortConfig.RequestSortAlternates | components/SubscriptionsPage.tsx:139-145 | clicking a header that is not the sort key gives ascending, then descending, then ascending |
| SortConfig.RequestSortTwiceRestores | components/PaymentDetailsPage.tsx:54-60 | two clicks on the ascending sort key return to ascending |
| SortConfig.GetSortDirectionAfterRequest | components/PaymentDetailsPage.tsx:54-67 | after `requestSort(k)` only header k reports a direction |
| Records.PlanNameInjective | types.ts:7 | distinct plans have distinct names, and every name is one of "Basic", "Pro", "Enterprise" |
| SubscriptionsPage.ToggleActivation | components/SubscriptionsPage.tsx:79-85 | length and ids are preserved; `isActive` flips exactly on records with the id; every other field is unchanged |
| SubscriptionsPage.ToggleActivationInvolution | components/SubscriptionsPage.tsx:79-85 | toggling the same id twice gives back the original list |
| SubscriptionsPage.OnToggleActivation | components/SubscriptionsPage.tsx:79-85 | the toggle changes only the subscription list and keeps its length |
| SubscriptionsPage.Keep | components/SubscriptionsPage.tsx:88-111 | the filter callback keeps a record iff the plan and status drop-downs pass and the query is empty or occurs in the lower-cased username, company, plan or status word |
| SubscriptionsPage.QueryIgnoresCase | components/SubscriptionsPage.tsx:101-110 | two queries that differ only in letter case keep the same records |
| SubscriptionsPage.FilterSubscriptions | components/SubscriptionsPage.tsx:87-112 | the filtered list is a subsequence; it has every matching record with its multiplicity and nothing else |
| SubscriptionsPage.ActiveQueryOnlyAppliesDiscreteFilters | components/SubscriptionsPage.tsx:106-110 | a query that lower-cases to "active" keeps exactly the records the drop-downs keep |
| SubscriptionsPage.NoFilterKeepsAll | components/SubscriptionsPage.tsx:90-104 | with both drop-downs on "All" and no query, the filter keeps the list unchanged |
| SubscriptionsPage.InitialRowsAreAllRecords | components/SubscriptionsPage.tsx:72-77 | on mount, with no query, no sort and "All" filters, the table shows every record in list order |
| SubscriptionsPage.Comparison | components/SubscriptionsPage.tsx:118-134 | the comparator, as written, equals the directed three-way comparison of the sort value, with uploads left standing in for uploads used; it is 0 exactly on equal sort values |
| SubscriptionsPage.ComparisonAntisymmetric | components/SubscriptionsPage.tsx:118-134 | swapping the two records negates the comparator |
| SubscriptionsPage.SortedMeansComparisonOrdered | components/SubscriptionsPage.tsx:118-134 | a list is sorted on the sort value iff every pair is ordered by the source comparator |
| SubscriptionsPage.SortSubscriptions | components/SubscriptionsPage.tsx:115-137 | with no sort config the filtered list comes back unchanged; otherwise the result is a permutation, pairwise ordered by the comparator, and stable |
| SubscriptionsPage.SortSubscriptionsIsTheStableSort | components/SubscriptionsPage.tsx:115-137 | every comparator-ordered, stable permutation of the filtered rows is the sorted table |
| SubscriptionsPage.SortSubscriptionsIdempotent | components/SubscriptionsPage.tsx:115-137 | sorting the sorted table again with the same config changes nothing |
| SubscriptionsPage.UploadsLeftOrderExample | components/SubscriptionsPage.tsx:123-127 | sorting ascending on uploads, a record with 10 of 100 uploads left comes before one with 90 of 100 left |
| SubscriptionsPage.PlanColumnIsAlphabetical | components/SubscriptionsPage.tsx:129-130 | the plan column sorts by name: Basic < Enterprise < Pro |
| SubscriptionsPage.OnRequestSort | components/SubscriptionsPage.tsx:139-145 | a header click sets the sort key to that column and changes nothing else |
| SubscriptionsPage.VisibleRowsSpec | components/SubscriptionsPage.tsx:87-137 | the rendered rows are exactly the matching records with their multiplicities; with no sort they are in list order |
| PaymentDetailsPage.Keep | components/PaymentDetailsPage.tsx:32-36 | a payment is kept iff the lower-cased query occurs in its lower-cased username or company name |
| PaymentDetailsPage.QueryIgnoresCase | components/PaymentDetailsPage.tsx:33-35 | two queries that differ only in letter case keep the same payments |
| PaymentDetailsPage.FilterPayments | components/PaymentDetailsPage.tsx:32-36 | the filtered list is a subsequence; it has every matching payment with its multiplicity and nothing else |
| PaymentDetailsPage.EmptyQueryKeepsAll | components/PaymentDetailsPage.tsx:33-35 | the empty query keeps every payment, in order |
| PaymentDetailsPage.InitialRowsAreAllPayments | components/PaymentDetailsPage.tsx:27-30 | on mount the table shows every payment in list order |
| PaymentDetailsPage.Comparison | components/PaymentDetailsPage.tsx:41-49 | the comparator with early returns equals the directed three-way comparison of the field; it is 0 exactly on equal keys |
| PaymentDetailsPage.ComparisonAntisymmetric | components/PaymentDetailsPage.tsx:41-49 | swapping the two payments negates the comparator |
| PaymentDetailsPage.SortedMeansComparisonOrdered | components/PaymentDetailsPage.tsx:41-49 | a list is sorted on the field iff every pair is ordered by the source comparator |
| PaymentDetailsPage.SortPayments | components/PaymentDetailsPage.tsx:38-52 | with no sort config the filtered list comes back unchanged; otherwise the result is a permutation, pairwise ordered by the comparator, and stable |
| PaymentDetailsPage.SortPaymentsIsTheStableSort | components/PaymentDetailsPage.tsx:38-52 | every comparator-ordered, stable permutation of the filtered payments is the sorted table |
| PaymentDetailsPage.OnRequestSort | components/PaymentDetailsPage.tsx:54-60 | a header click sets the sort key to that column and changes nothing else |
| PaymentDetailsPage.VisibleRowsSpec | components/PaymentDetailsPage.tsx:32-52 | the rendered rows are exactly the matching payments with their multiplicities; with no sort they are in list order |
| Dashboard.RevenueAppend | components/DashboardPage.tsx:31 | revenue over a concatenation is the sum of the two revenues |
| Dashboard.TotalRevenue | components/DashboardPage.tsx:31 | the left-to-right `reduce` equals the sum of all amounts, and is 0 for no payments |
| Dashboard.RevenueNonNegative | components/DashboardPage.tsx:31 | non-negative amounts give non-negative revenue |
| Dashboard.RevenueExample | components/DashboardPage.tsx:31 | payments of 10, 20 and 30 give 60 |
| Dashboard.ActiveUsers | components/DashboardPage.tsx:32-33 | the active-user count equals the number of active subscriptions, counted record by record; it never exceeds total users, equals it iff all are active, and is 0 iff none is |
| Dashboard.ActiveFilterLengthIsCount | components/DashboardPage.tsx:32 | the length of the `isActive` filter equals the record-by-record count of active subscriptions |
| Dashboard.ActiveUsersExample | components/DashboardPage.tsx:32 | two active subscriptions out of three give 2 active users |
| Dashboard.CountPlanAppend | components/DashboardPage.tsx:35-38 | per-plan counts add up over a concatenation |
| Dashboard.CountPlansSum | components/DashboardPage.tsx:35-38 | the three per-plan counts add up to the number of subscriptions |
| Dashboard.PlanCounts | components/DashboardPage.tsx:35-38 | keys are plan names; a plan has an entry iff it has a subscriber, with that plan's count; every entry is at least 1; entries add up to the list length |
| Dashboard.ComputeStats | components/DashboardPage.tsx:30-46 | revenue is the sum of amounts; total users is the list length; active users is the number of active subscriptions, at most total users; a plan has an entry iff it has a subscriber, holding that plan's count; every entry is at least 1; entries add up to total users |
| ColumnFilter.ToggleColumn | components/ColumnFilter.tsx:31-41 | a hidden key is added; a visible key is removed only while more than one column is visible; no other key changes membership |
| ColumnFilter.VisibleCountMonotone | components/ColumnFilter.tsx:34 | showing more keys never lowers the visible-column count |
| ColumnFilter.VisibleCountIgnoresAbsentKey | components/ColumnFilter.tsx:34 | hiding a key that no column has leaves the count unchanged |
| ColumnFilter.VisibleCountRemoveOne | components/ColumnFilter.tsx:34-35 | with distinct column keys, hiding one key lowers the count by at most one |
| ColumnFilter.ToggleKeepsAColumnVisible | components/ColumnFilter.tsx:31-41 | with distinct column keys, if a column is visible before a toggle then one is visible after it |
| ColumnFilter.DuplicateKeyHidesEveryColumn | components/ColumnFilter.tsx:34-35 | two columns sharing one key pass the "more than one" guard, and the toggle then hides both |
| ColumnFilter.ShowAddsOne | components/ColumnFilter.tsx:37-39 | showing a hidden column's key raises the count by at least one |
| ColumnFilter.ShowThenHideRestores | components/ColumnFilter.tsx:31-41 | showing a hidden column and toggling it again restores the set when another column was visible |
| LoginPage.Mount | components/LoginPage.tsx:17-25 | the form is pre-filled with the cached pair and "remember me" on iff both keys hold non-empty strings; otherwise it is empty |
| LoginPage.HandleLogin | components/LoginPage.tsx:27-43 | the result is success iff the credentials are the demo pair. On success with "remember me" both keys hold the credentials; without it both keys are gone. On failure the store is unchanged and the error is set. No other key changes |
| LoginPage.Submit | components/LoginPage.tsx:53-80 | with either required field empty the form is not submitted and nothing changes; otherwise the submit is the login handler; it logs in iff the demo pair was entered |
| LoginPage.RememberedLoginPrefillsNextMount | components/LoginPage.tsx:17-34 | after a remembered login, the next mount pre-fills exactly the accepted credentials with "remember me" on |
| LoginPage.ForgottenLoginClearsNextMount | components/LoginPage.tsx:17-37 | after a login without "remember me", the next mount shows an empty form |
| LoginPage.FailedLoginKeepsNextMount | components/LoginPage.tsx:40-41 | a rejected attempt does not change what the next mount shows |
| App.Login | App.tsx:12-14 | login sets the flag and keeps the page |
| App.Logout | App.tsx:16-19 | logout clears the flag and resets the page to "subscriptions" |
| App.NavigateTo | App.tsx:25-27 | navigation sets the page id and leaves the flag alone |
| App.Rendered | App.tsx:23-31 | logged out, only the login form is shown. Logged in, each page is shown iff its id is the current page, so a known id shows exactly one page and any other id shows none |
| App.RunStaysOnKnownPages | components/Sidebar.tsx:46-72 | sidebar-driven event runs from a known page stay on known pages, and render exactly one page while logged in |
| App.ReachableStatesRenderOneScreen | App.tsx:9-31 | from start-up, every state reached by login, logout and sidebar clicks renders exactly one component |
| App.LogoutThenLoginLandsOnDefault | App.tsx:12-19 | logging out and in again always lands on the subscriptions page |
| App.SubmitLogin | components/LoginPage.tsx:31-39 | submitting the form logs the shell in iff the demo credentials were entered, and keeps the page; with an empty field nothing changes at all |

## Left out

- Rendering (JSX), Tailwind classes, `getPlanChipColor`, the icons, and the sidebar's open/close overlay are left out: they are presentation only.
- `DateTimeCell` is left out. It parses dates and formats local times, which depends on time zones and locale.
- The `UploadsCell` percentages, the progress-bar thresholds and the dashboard bar widths are left out. They are floating-point display arithmetic.
- Currency formatting with `Intl.NumberFormat` is left out.
- Money is modelled as whole cents in `int`, and ids and upload counts as `int`. JavaScript's floating-point rounding in the revenue sum is not modelled.
- `toLowerCase` is ASCII-only. Full Unicode case mapping is not modelled.
- A `char` stands for one UTF-16 code unit. Characters outside the Basic Multilingual Plane are not split into surrogate pairs.
- JavaScript `<` between values of different types is not modelled. One sort key always yields values of one kind, so it never arises. `Ordering.Less` orders different kinds by kind only to stay total.
- The engine's own sort algorithm is not modelled. Any conforming engine sorts stably, and `StableSort.StableSortUnique` shows every stable sort gives the same result as the insertion sort here.
- The real `localStorage` API is not modelled. It is a map passed in and returned, not I/O.
- React hooks and memoisation are not modelled. Each derived value is recomputed from its inputs.
- The dashboard reads the constant mock arrays. Here they are parameters, and the mock data (`constants`) is not part of this model.
- ColumnFilter's dropdown open state and its document `mousedown` listener are left out: they are DOM event plumbing.
- `new Set(visibleColumns)` is not modelled as a copy. Sets are values here, so the input set cannot be changed.
- The login form's show-password switch is left out: it only changes how the field is drawn.
- The field edits between mount and submit are not modelled as steps. The submitted form is a parameter.
- ColumnFilter.ToggleKeepsAColumnVisible: assumes the column keys are distinct, because the source counts columns, not keys. `ColumnFilter.DuplicateKeyHidesEveryColumn` shows the guard can be passed with a duplicated key.
