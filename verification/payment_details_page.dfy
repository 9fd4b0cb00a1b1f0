/**
  The view model of the payments table (components/PaymentDetailsPage.tsx):
  a free-text filter over username and company name, a single-key sort with
  a direct comparator, and the header sort toggle of `SortConfig`.
 */
module PaymentDetailsPage {
  import opened Optional
  import Strings
  import opened Ordering
  import opened Seqs
  import opened StableSort
  import opened SortConfig
  import opened Records

  // ---------------------------------------------------------------------------
  // Filter
  // ---------------------------------------------------------------------------

  /**
    The callback passed to `payments.filter`: it keeps a payment exactly when
    the lower-cased query occurs in its lower-cased username or company name.
   */
  function Keep(p: Payment, searchQuery: string): (keep: bool)
    ensures keep <==> MatchesQuery(p, searchQuery)
  {
    var query := Strings.ToLower(searchQuery);
    Strings.IncludesIffOccurs(Strings.ToLower(p.username), query);
    Strings.IncludesIffOccurs(Strings.ToLower(p.companyName), query);
    Strings.Includes(Strings.ToLower(p.username), query)
    || Strings.Includes(Strings.ToLower(p.companyName), query)
  }

  /** The search box, stated with substring occurrence rather than the scan. */
  ghost predicate MatchesQuery(p: Payment, searchQuery: string) {
    var q := Strings.ToLower(searchQuery);
    Strings.Occurs(Strings.ToLower(p.username), q) || Strings.Occurs(Strings.ToLower(p.companyName), q)
  }

  /** The search is case-insensitive: queries that differ only in letter case keep the same payments. */
  lemma QueryIgnoresCase(p: Payment, q1: string, q2: string)
    requires Strings.EqualIgnoringCase(q1, q2)
    ensures Keep(p, q1) == Keep(p, q2)
  {
    Strings.ToLowerCaseInsensitive(q1, q2);
  }

  /** `filteredPayments`. */
  function FilterPayments(payments: seq<Payment>, searchQuery: string): (r: seq<Payment>)
    ensures IsSubsequence(r, payments)
    ensures forall p :: multiset(r)[p] ==
                          (if MatchesQuery(p, searchQuery) then multiset(payments)[p] else 0)
    ensures forall i :: 0 <= i < |r| ==> MatchesQuery(r[i], searchQuery)
  {
    Filter(payments, p => Keep(p, searchQuery))
  }

  /** The empty query is a substring of every name, so every payment is kept. */
  lemma EmptyQueryKeepsAll(payments: seq<Payment>)
    ensures FilterPayments(payments, "") == payments
  {
    forall i | 0 <= i < |payments|
      ensures Keep(payments[i], "")
    {
      Strings.IncludesEmpty(Strings.ToLower(payments[i].username));
    }
    FilterKeepsAll(payments, p => Keep(p, ""));
  }

  // ---------------------------------------------------------------------------
  // Sort
  // ---------------------------------------------------------------------------

  /** `keyof Payment`. */
  datatype PaymentKey = Id | Username | CompanyName | TotalAmountPaid

  /** `payment[key]`. */
  function FieldValue(p: Payment, key: PaymentKey): Field {
    match key
    case Id => Num(p.id)
    case Username => Str(p.username)
    case CompanyName => Str(p.companyName)
    case TotalAmountPaid => Num(p.totalAmountPaid)
  }

  /**
    The comparator passed to `sortableItems.sort`, with its early returns: it
    is the three-way comparison of the field, reversed for descending, so it is
    0 exactly when the two fields are equal.
   */
  function Comparison(a: Payment, b: Payment, spec: SortSpec<PaymentKey>): (c: int)
    ensures c == Directed(Compare(FieldValue(a, spec.key), FieldValue(b, spec.key)), spec.direction)
    ensures c == 0 <==> FieldValue(a, spec.key) == FieldValue(b, spec.key)
  {
    LessStrictTotalOrder(FieldValue(a, spec.key), FieldValue(b, spec.key), FieldValue(a, spec.key));
    if Less(FieldValue(a, spec.key), FieldValue(b, spec.key)) then
      (if spec.direction == Ascending then -1 else 1)
    else if Less(FieldValue(b, spec.key), FieldValue(a, spec.key)) then
      (if spec.direction == Ascending then 1 else -1)
    else 0
  }

  /** Swapping the two payments negates the comparison. */
  lemma ComparisonAntisymmetric(a: Payment, b: Payment, spec: SortSpec<PaymentKey>)
    ensures Comparison(a, b, spec) == -Comparison(b, a, spec)
  {
    CompareAntisymmetric(FieldValue(a, spec.key), FieldValue(b, spec.key));
  }

  function SortKey(key: PaymentKey): Payment -> Field {
    p => FieldValue(p, key)
  }

  lemma SortedMeansComparisonOrdered(r: seq<Payment>, spec: SortSpec<PaymentKey>)
    ensures Sorted(r, SortKey(spec.key), spec.direction)
        <==> forall i, j :: 0 <= i < j < |r| ==> Comparison(r[i], r[j], spec) <= 0
  {
    forall a, b
      ensures Comparison(a, b, spec) <= 0
          <==> InOrder(SortKey(spec.key)(a), SortKey(spec.key)(b), spec.direction)
    {
    }
  }

  /** `sortedPayments`: a copy, sorted when a sort is configured. */
  function SortPayments(items: seq<Payment>, config: Option<SortSpec<PaymentKey>>): (r: seq<Payment>)
    ensures config.None? ==> r == items
    ensures multiset(r) == multiset(items)
    ensures config.Some? ==>
      forall i, j :: 0 <= i < j < |r| ==> Comparison(r[i], r[j], config.value) <= 0
    ensures config.Some? ==> Stable(r, items, SortKey(config.value.key))
  {
    match config
    case None => items
    case Some(spec) =>
      var r := Sort(items, SortKey(spec.key), spec.direction);
      SortIsStableSort(items, SortKey(spec.key), spec.direction);
      SortedMeansComparisonOrdered(r, spec);
      r
  }

  /** Any comparator-ordered, stable permutation of the filtered rows is the sorted table. */
  lemma SortPaymentsIsTheStableSort(items: seq<Payment>, spec: SortSpec<PaymentKey>, out: seq<Payment>)
    requires multiset(out) == multiset(items)
    requires forall i, j :: 0 <= i < j < |out| ==> Comparison(out[i], out[j], spec) <= 0
    requires Stable(out, items, SortKey(spec.key))
    ensures out == SortPayments(items, Some(spec))
  {
    SortedMeansComparisonOrdered(out, spec);
    SortIsStableSort(items, SortKey(spec.key), spec.direction);
    StableSortUnique(out, Sort(items, SortKey(spec.key), spec.direction), items, SortKey(spec.key), spec.direction);
  }

  // ---------------------------------------------------------------------------
  // The page
  // ---------------------------------------------------------------------------

  datatype PageState = PageState(
    payments: seq<Payment>,
    searchQuery: string,
    sortConfig: Option<SortSpec<PaymentKey>>)

  function InitialPage(payments: seq<Payment>): PageState {
    PageState(payments, "", None)
  }

  /** The rows the table renders. */
  function VisibleRows(st: PageState): seq<Payment> {
    SortPayments(FilterPayments(st.payments, st.searchQuery), st.sortConfig)
  }

  /** A header click. */
  function OnRequestSort(st: PageState, key: PaymentKey): (r: PageState)
    ensures r.sortConfig.Some? && r.sortConfig.value.key == key
    ensures r.(sortConfig := st.sortConfig) == st
  {
    st.(sortConfig := Some(RequestSort(st.sortConfig, key)))
  }

  /** On mount the table shows every payment in its original order. */
  lemma InitialRowsAreAllPayments(payments: seq<Payment>)
    ensures VisibleRows(InitialPage(payments)) == payments
  {
    EmptyQueryKeepsAll(payments);
  }

  /**
    The rendered rows are exactly the matching payments, each as often as in
    the list, and in list order when no sort is configured.
   */
  lemma VisibleRowsSpec(st: PageState)
    ensures forall p :: multiset(VisibleRows(st))[p] ==
                          (if MatchesQuery(p, st.searchQuery) then multiset(st.payments)[p] else 0)
    ensures st.sortConfig.None? ==> IsSubsequence(VisibleRows(st), st.payments)
  {
  }
}
