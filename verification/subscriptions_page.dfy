/**
  The view model of the subscriptions table (components/SubscriptionsPage.tsx):
  the activation toggle, the plan / status / free-text filter, the single-key
  sort whose "uploads used" column sorts on the uploads left, and the header
  sort toggle.
 */
module SubscriptionsPage {
  import opened Optional
  import Strings
  import opened Ordering
  import opened Seqs
  import opened StableSort
  import opened SortConfig
  import opened Records

  // ---------------------------------------------------------------------------
  // Activation toggle
  // ---------------------------------------------------------------------------

  /** `handleToggleActivation(id)`: flip `isActive` on the records carrying `id`. */
  function ToggleActivation(subs: seq<Subscription>, id: int): (r: seq<Subscription>)
    ensures |r| == |subs|
    ensures forall i :: 0 <= i < |r| ==> r[i].isActive == (subs[i].isActive != (subs[i].id == id))
    ensures forall i :: 0 <= i < |r| ==> r[i].(isActive := subs[i].isActive) == subs[i]
  {
    seq(|subs|, i requires 0 <= i < |subs| =>
      if subs[i].id == id then subs[i].(isActive := !subs[i].isActive) else subs[i])
  }

  /** Toggling the same id twice restores the list. */
  lemma ToggleActivationInvolution(subs: seq<Subscription>, id: int)
    ensures ToggleActivation(ToggleActivation(subs, id), id) == subs
  {
    var once := ToggleActivation(subs, id);
    var twice := ToggleActivation(once, id);
    forall i | 0 <= i < |subs|
      ensures twice[i] == subs[i]
    {
      assert once[i].id == subs[i].id;
    }
  }

  // ---------------------------------------------------------------------------
  // Filter
  // ---------------------------------------------------------------------------

  /** The label the status filter compares against. */
  function StatusLabel(s: Subscription): string {
    if s.isActive then "Active" else "Inactive"
  }

  /** The word the free-text query is matched against. */
  function StatusWord(s: Subscription): string {
    if s.isActive then "active" else "inactive"
  }

  /**
    The callback passed to `subscriptions.filter`, branch for branch: it keeps
    a record exactly when both drop-downs pass and the query is empty or occurs
    in one of the searched fields.
   */
  function Keep(s: Subscription, searchQuery: string, planFilter: string, statusFilter: string): (keep: bool)
    ensures keep <==> PassesDiscreteFilters(s, planFilter, statusFilter) && MatchesQuery(s, searchQuery)
  {
    var query := Strings.ToLower(searchQuery);
    Strings.IncludesIffOccurs(Strings.ToLower(s.username), query);
    Strings.IncludesIffOccurs(Strings.ToLower(s.companyName), query);
    Strings.IncludesIffOccurs(Strings.ToLower(PlanName(s.subscriptionPlan)), query);
    Strings.IncludesIffOccurs(StatusWord(s), query);
    if planFilter != "All" && PlanName(s.subscriptionPlan) != planFilter then false
    else if statusFilter != "All" && StatusLabel(s) != statusFilter then false
    else if |query| == 0 then true
    else
      Strings.Includes(Strings.ToLower(s.username), query)
      || Strings.Includes(Strings.ToLower(s.companyName), query)
      || Strings.Includes(Strings.ToLower(PlanName(s.subscriptionPlan)), query)
      || Strings.Includes(StatusWord(s), query)
  }

  /** The plan and status drop-downs: "All" or an exact match. */
  predicate PassesDiscreteFilters(s: Subscription, planFilter: string, statusFilter: string) {
    && (planFilter == "All" || PlanName(s.subscriptionPlan) == planFilter)
    && (statusFilter == "All" || StatusLabel(s) == statusFilter)
  }

  /** The search box, stated with substring occurrence rather than the scan. */
  ghost predicate MatchesQuery(s: Subscription, searchQuery: string) {
    var q := Strings.ToLower(searchQuery);
    || |searchQuery| == 0
    || Strings.Occurs(Strings.ToLower(s.username), q)
    || Strings.Occurs(Strings.ToLower(s.companyName), q)
    || Strings.Occurs(Strings.ToLower(PlanName(s.subscriptionPlan)), q)
    || Strings.Occurs(StatusWord(s), q)
  }

  /** The search is case-insensitive: queries that differ only in letter case keep the same records. */
  lemma QueryIgnoresCase(s: Subscription, q1: string, q2: string, planFilter: string, statusFilter: string)
    requires Strings.EqualIgnoringCase(q1, q2)
    ensures Keep(s, q1, planFilter, statusFilter) == Keep(s, q2, planFilter, statusFilter)
  {
    Strings.ToLowerCaseInsensitive(q1, q2);
  }

  /** `filteredSubscriptions`. */
  function FilterSubscriptions(subs: seq<Subscription>, searchQuery: string, planFilter: string, statusFilter: string)
    : (r: seq<Subscription>)
    ensures IsSubsequence(r, subs)
    ensures forall s :: multiset(r)[s] ==
                          (if PassesDiscreteFilters(s, planFilter, statusFilter) && MatchesQuery(s, searchQuery)
                           then multiset(subs)[s] else 0)
    ensures forall i :: 0 <= i < |r| ==>
      PassesDiscreteFilters(r[i], planFilter, statusFilter) && MatchesQuery(r[i], searchQuery)
  {
    Filter(subs, s => Keep(s, searchQuery, planFilter, statusFilter))
  }

  /** "active" occurs in both status words, so that query only applies the drop-downs. */
  lemma ActiveQueryOnlyAppliesDiscreteFilters(s: Subscription, searchQuery: string, planFilter: string, statusFilter: string)
    requires Strings.ToLower(searchQuery) == "active"
    ensures Keep(s, searchQuery, planFilter, statusFilter) == PassesDiscreteFilters(s, planFilter, statusFilter)
  {
    Strings.ActiveInActive();
    Strings.ActiveInInactive();
  }

  /** With no query and both drop-downs on "All", nothing is filtered out. */
  lemma NoFilterKeepsAll(subs: seq<Subscription>)
    ensures FilterSubscriptions(subs, "", "All", "All") == subs
  {
    FilterKeepsAll(subs, s => Keep(s, "", "All", "All"));
  }

  // ---------------------------------------------------------------------------
  // Sort
  // ---------------------------------------------------------------------------

  /** `keyof Subscription`. */
  datatype SubscriptionKey =
    | Id | Username | CompanyName | RegistrationDate | SubscriptionPlan
    | SubscriptionStartDate | SubscriptionEndDate | TotalUploads | UploadsUsed | IsActive

  /** `sub[key]`. */
  function FieldValue(s: Subscription, key: SubscriptionKey): Field {
    match key
    case Id => Num(s.id)
    case Username => Str(s.username)
    case CompanyName => Str(s.companyName)
    case RegistrationDate => Str(s.registrationDate)
    case SubscriptionPlan => Str(PlanName(s.subscriptionPlan))
    case SubscriptionStartDate => Str(s.subscriptionStartDate)
    case SubscriptionEndDate => Str(s.subscriptionEndDate)
    case TotalUploads => Num(s.totalUploads)
    case UploadsUsed => Num(s.uploadsUsed)
    case IsActive => Flag(s.isActive)
  }

  function UploadsLeft(s: Subscription): int {
    s.totalUploads - s.uploadsUsed
  }

  /** The value a column actually sorts on: the uploads left stand in for `uploadsUsed`. */
  function SortValue(s: Subscription, key: SubscriptionKey): Field {
    if key == UploadsUsed then Num(UploadsLeft(s)) else FieldValue(s, key)
  }

  /**
    The comparator passed to `sortableItems.sort`, statement for statement: it
    is the three-way comparison of the sort value, reversed for descending, so
    it is 0 exactly when the two sort values are equal.
   */
  function Comparison(a: Subscription, b: Subscription, spec: SortSpec<SubscriptionKey>): (c: int)
    ensures c == Directed(Compare(SortValue(a, spec.key), SortValue(b, spec.key)), spec.direction)
    ensures c == 0 <==> SortValue(a, spec.key) == SortValue(b, spec.key)
  {
    LessStrictTotalOrder(SortValue(a, spec.key), SortValue(b, spec.key), SortValue(a, spec.key));
    var aValue := FieldValue(a, spec.key);
    var bValue := FieldValue(b, spec.key);
    var comparison :=
      if spec.key == UploadsUsed then
        var remainingA := a.totalUploads - a.uploadsUsed;
        var remainingB := b.totalUploads - b.uploadsUsed;
        var c := if remainingA < remainingB then -1 else 0;
        if remainingA > remainingB then 1 else c
      else
        var c := if Less(aValue, bValue) then -1 else 0;
        if Less(bValue, aValue) then 1 else c;
    if spec.direction == Ascending then comparison else -comparison
  }

  /** Swapping the two records negates the comparison. */
  lemma ComparisonAntisymmetric(a: Subscription, b: Subscription, spec: SortSpec<SubscriptionKey>)
    ensures Comparison(a, b, spec) == -Comparison(b, a, spec)
  {
    CompareAntisymmetric(SortValue(a, spec.key), SortValue(b, spec.key));
  }

  function SortKey(key: SubscriptionKey): Subscription -> Field {
    s => SortValue(s, key)
  }

  /** `sortedSubscriptions`: a copy, sorted when a sort is configured. */
  function SortSubscriptions(items: seq<Subscription>, config: Option<SortSpec<SubscriptionKey>>)
    : (r: seq<Subscription>)
    ensures config.None? ==> r == items
    ensures multiset(r) == multiset(items)
    ensures config.Some? ==>
      forall i, j :: 0 <= i < j < |r| ==> Comparison(r[i], r[j], config.value) <= 0
    ensures config.Some? ==> Stable(r, items, SortKey(config.value.key))
  {
    match config
    case None => items
    case Some(spec) =>
      var r := Sort(items, SortKey(spec.key), spec.direction);
      SortIsStableSort(items, SortKey(spec.key), spec.direction);
      SortedMeansComparisonOrdered(r, spec);
      r
  }

  lemma SortedMeansComparisonOrdered(r: seq<Subscription>, spec: SortSpec<SubscriptionKey>)
    ensures Sorted(r, SortKey(spec.key), spec.direction)
        <==> forall i, j :: 0 <= i < j < |r| ==> Comparison(r[i], r[j], spec) <= 0
  {
    forall a, b
      ensures Comparison(a, b, spec) <= 0
          <==> InOrder(SortKey(spec.key)(a), SortKey(spec.key)(b), spec.direction)
    {
    }
  }

  /**
    The sorted table is the only ordering that is a permutation of the filtered
    rows, ordered by the comparator, and keeps rows with equal sort values in
    their filtered order; any conforming stable engine sort produces it.
   */
  lemma SortSubscriptionsIsTheStableSort(items: seq<Subscription>, spec: SortSpec<SubscriptionKey>, out: seq<Subscription>)
    requires multiset(out) == multiset(items)
    requires forall i, j :: 0 <= i < j < |out| ==> Comparison(out[i], out[j], spec) <= 0
    requires Stable(out, items, SortKey(spec.key))
    ensures out == SortSubscriptions(items, Some(spec))
  {
    SortedMeansComparisonOrdered(out, spec);
    SortIsStableSort(items, SortKey(spec.key), spec.direction);
    StableSortUnique(out, Sort(items, SortKey(spec.key), spec.direction), items, SortKey(spec.key), spec.direction);
  }

  /** Re-sorting the sorted table with the same configuration changes nothing. */
  lemma SortSubscriptionsIdempotent(items: seq<Subscription>, config: Option<SortSpec<SubscriptionKey>>)
    ensures SortSubscriptions(SortSubscriptions(items, config), config) == SortSubscriptions(items, config)
  {
    if config.Some? {
      SortIdempotent(items, SortKey(config.value.key), config.value.direction);
    }
  }

  /** 10 uploads left rank before 90 uploads left when sorting ascending on the uploads column. */
  lemma UploadsLeftOrderExample(a: Subscription, b: Subscription)
    requires a.totalUploads == 100 && a.uploadsUsed == 90
    requires b.totalUploads == 100 && b.uploadsUsed == 10
    ensures Comparison(a, b, SortSpec(UploadsUsed, Ascending)) == -1
    ensures SortSubscriptions([b, a], Some(SortSpec(UploadsUsed, Ascending))) == [a, b]
  {
    var key := SortKey(UploadsUsed);
    assert Insert(a, [], key, Ascending) == [a];
    assert !InOrder(key(b), key(a), Ascending);
    assert Insert(b, [a], key, Ascending) == [a] + Insert(b, [], key, Ascending);
  }

  /** The plan column sorts the plan names alphabetically: Basic, Enterprise, Pro. */
  lemma PlanColumnIsAlphabetical()
    ensures Less(Str(PlanName(Basic)), Str(PlanName(Enterprise)))
    ensures Less(Str(PlanName(Enterprise)), Str(PlanName(Pro)))
  {
  }

  // ---------------------------------------------------------------------------
  // The page
  // ---------------------------------------------------------------------------

  datatype PageState = PageState(
    subscriptions: seq<Subscription>,
    searchQuery: string,
    sortConfig: Option<SortSpec<SubscriptionKey>>,
    planFilter: string,
    statusFilter: string)

  /** The page on mount: every record, no query, no sort, both drop-downs on "All". */
  function InitialPage(subscriptions: seq<Subscription>): PageState {
    PageState(subscriptions, "", None, "All", "All")
  }

  /** The rows the table renders. */
  function VisibleRows(st: PageState): seq<Subscription> {
    SortSubscriptions(
      FilterSubscriptions(st.subscriptions, st.searchQuery, st.planFilter, st.statusFilter),
      st.sortConfig)
  }

  /** A header click. */
  function OnRequestSort(st: PageState, key: SubscriptionKey): (r: PageState)
    ensures r.sortConfig.Some? && r.sortConfig.value.key == key
    ensures r.(sortConfig := st.sortConfig) == st
  {
    st.(sortConfig := Some(RequestSort(st.sortConfig, key)))
  }

  /** An activation switch click. */
  function OnToggleActivation(st: PageState, id: int): (r: PageState)
    ensures r.(subscriptions := st.subscriptions) == st
    ensures |r.subscriptions| == |st.subscriptions|
  {
    st.(subscriptions := ToggleActivation(st.subscriptions, id))
  }

  /** On mount the table shows every record in its original order. */
  lemma InitialRowsAreAllRecords(subscriptions: seq<Subscription>)
    ensures VisibleRows(InitialPage(subscriptions)) == subscriptions
  {
    NoFilterKeepsAll(subscriptions);
  }

  /**
    The rendered rows are exactly the filtered records, each as often as in
    the list, and in list order when no sort is configured.
   */
  lemma VisibleRowsSpec(st: PageState)
    ensures forall s :: multiset(VisibleRows(st))[s] ==
                          (if PassesDiscreteFilters(s, st.planFilter, st.statusFilter) && MatchesQuery(s, st.searchQuery)
                           then multiset(st.subscriptions)[s] else 0)
    ensures st.sortConfig.None? ==> IsSubsequence(VisibleRows(st), st.subscriptions)
  {
  }
}
